/**
 The session shared with its clients: one host, the relay transport
 (apps/epicenter/src/attach-relay-host.ts, attach-relay-client.ts) and the loopback stream sockets
 (apps/epicenter/src/server.ts). Every peer's frames travel first in, first out; a remote client holds
 the last one it read.
 */
module Mirror {
  import opened Prelude
  import Strings
  import opened ToolGate
  import opened Transcript
  import opened Session
  import opened SessionTranscript
  import opened SessionNotify
  import opened RelayClients

  datatype Peer = Remote(endpoint: Endpoint) | Local(stream: nat)

  datatype Socket = Connecting | Open | Closing | Closed

  datatype Frame = Frame(peer: Peer, snapshot: Snapshot)

  /** `wire` is every frame ever sent; `read` counts the frames each peer has consumed. `stale` marks
      the peers whose last frame precedes a quiet change of the session. */
  datatype World = World(
    session: State,
    socket: Socket,
    subscribed: bool,
    clients: seq<ClientEntry>,
    streams: seq<nat>,
    wire: seq<Frame>,
    read: map<Peer, nat>,
    stale: set<Peer>)

  datatype Happening =
    | Internal(e: Event)                               // the engine, a tool or the process itself
    | SocketOpens
    | SocketCloses(finished: bool)
    | FromRelay(p: Presence)                           // an attach or detach frame
    | RemoteCommand(from: Endpoint, command: Option<Command>)
    | StreamOpens(stream: nat)
    | StreamCommand(stream: nat, command: Option<Command>)
    | StreamCloses(stream: nat)
    | CloseRelay
    | Reads(peer: Peer)

  // ---------------------------------------------------------------- fan-out

  function Locals(streams: seq<nat>): (peers: seq<Peer>)
    ensures forall p :: p in peers <==> p.Local? && p.stream in streams
  {
    if streams == [] then [] else [Local(streams[0])] + Locals(streams[1..])
  }

  function Remotes(clients: seq<ClientEntry>): (peers: seq<Peer>)
    ensures forall p :: p in peers <==> p.Remote? && exists i :: 0 <= i < |clients| && clients[i].endpoint == p.endpoint
  {
    if clients == [] then []
    else
      assert forall i :: 0 < i < |clients| ==> clients[1..][i - 1] == clients[i];
      [Remote(clients[0].endpoint)] + Remotes(clients[1..])
  }

  /** Whom a notification reaches: attached clients on an open, subscribed relay socket; open streams. */
  function Audience(w: World): seq<Peer> {
    (if w.subscribed && w.socket == Open then Remotes(w.clients) else []) + Locals(w.streams)
  }

  function PushAll(wire: seq<Frame>, peers: seq<Peer>, snapshot: Snapshot): seq<Frame>
    decreases |peers|
  {
    if peers == [] then wire else PushAll(wire + [Frame(peers[0], snapshot)], peers[1..], snapshot)
  }

  function FanOut(wire: seq<Frame>, peers: seq<Peer>, heard: seq<Snapshot>): seq<Frame>
    decreases |heard|
  {
    if heard == [] then wire
    else PushAll(FanOut(wire, peers, heard[..|heard| - 1]), peers, heard[|heard| - 1])
  }

  function Heard(before: State, after: State): seq<Snapshot> {
    if |before.heard| <= |after.heard| then after.heard[|before.heard|..] else []
  }

  predicate Live(w: World, p: Peer) {
    p in Audience(w)
  }

  /** Run one session event; each notification during it is pushed to the audience. */
  function Drive(w: World, tools: Catalog, e: Event): World {
    var after := Step(w.session, tools, e);
    var news := Heard(w.session, after);
    w.(session := after,
       wire := FanOut(w.wire, Audience(w), news),
       stale := if Quiet(w.session, tools, e) then (set p | p in Audience(w))
                else if news != [] then {} else w.stale)
  }

  function Push(w: World, p: Peer): World {
    w.(wire := w.wire + [Frame(p, Snap(w.session))], stale := w.stale - {p})
  }

  function Without(streams: seq<nat>, n: nat): (rest: seq<nat>)
    ensures forall m :: m in rest <==> m in streams && m != n
  {
    if streams == [] then [] else (if streams[0] == n then [] else [streams[0]]) + Without(streams[1..], n)
  }

  function Frames(wire: seq<Frame>, p: Peer): seq<Snapshot> {
    if wire == [] then []
    else
      var last := wire[|wire| - 1];
      Frames(wire[..|wire| - 1], p) + (if last.peer == p then [last.snapshot] else [])
  }

  function ReadCount(w: World, p: Peer): nat {
    if p in w.read then w.read[p] else 0
  }

  /** `latest()` of the client at `p`: the last frame it has read. */
  function LatestAt(w: World, p: Peer): Option<Snapshot> {
    var frames := Frames(w.wire, p);
    if ReadCount(w, p) == 0 || ReadCount(w, p) > |frames| then None else Some(frames[ReadCount(w, p) - 1])
  }

  /** Relay frames arrive only on an open socket, and a socket never reopens. */
  function Happen(w: World, tools: Catalog, h: Happening): World {
    match h
    case Internal(e) => Drive(w, tools, e)
    case SocketOpens => if w.socket == Connecting then w.(socket := Open) else w
    case SocketCloses(finished) =>
      if finished then w.(socket := Closed, clients := []) else if w.socket == Closed then w else w.(socket := Closing)
    case FromRelay(p) =>
      if w.socket != Open then w
      else (
        match p
        case Attach(e) =>
          var attached := w.(clients := Set(w.clients, e));
          if w.subscribed then Push(attached, Remote(e)) else attached
        case Detach(e) => w.(clients := Delete(w.clients, Key(e)))
        case SocketClose => w)
    case RemoteCommand(_, command) =>
      if w.socket == Open && command.Some? then Drive(w, tools, Client(command.value)) else w
    case StreamOpens(n) => if n in w.streams then w else Push(w.(streams := w.streams + [n]), Local(n))
    case StreamCommand(n, command) =>
      if n in w.streams && command.Some? then Push(Drive(w, tools, Client(command.value)), Local(n)) else w
    case StreamCloses(n) => w.(streams := Without(w.streams, n))
    case CloseRelay => w.(subscribed := false, clients := [], socket := if w.socket == Closed then Closed else Closing)
    case Reads(p) =>
      if ReadCount(w, p) < |Frames(w.wire, p)| then w.(read := w.read[p := ReadCount(w, p) + 1]) else w
  }

  function History(w: World, tools: Catalog, hs: seq<Happening>): World {
    if hs == [] then w else Happen(History(w, tools, hs[..|hs| - 1]), tools, hs[|hs| - 1])
  }

  // ---------------------------------------------------------------- what fan-out sends

  lemma {:induction false} FramesAppend(wire: seq<Frame>, frame: Frame, p: Peer)
    ensures Frames(wire + [frame], p) == Frames(wire, p) + if frame.peer == p then [frame.snapshot] else []
  {
    assert (wire + [frame])[..|wire|] == wire;
  }

  ghost predicate EndsWith(wire: seq<Frame>, p: Peer, snapshot: Snapshot) {
    Frames(wire, p) != [] && Frames(wire, p)[|Frames(wire, p)| - 1] == snapshot
  }

  lemma {:induction false} PushAllReaches(wire: seq<Frame>, peers: seq<Peer>, snapshot: Snapshot, p: Peer)
    ensures p in peers ==> EndsWith(PushAll(wire, peers, snapshot), p, snapshot)
    ensures p !in peers ==> Frames(PushAll(wire, peers, snapshot), p) == Frames(wire, p)
    ensures EndsWith(wire, p, snapshot) ==> EndsWith(PushAll(wire, peers, snapshot), p, snapshot)
    decreases |peers|
  {
    if peers != [] {
      FramesAppend(wire, Frame(peers[0], snapshot), p);
      PushAllReaches(wire + [Frame(peers[0], snapshot)], peers[1..], snapshot, p);
    }
  }

  lemma {:induction false} FanOutReaches(wire: seq<Frame>, peers: seq<Peer>, heard: seq<Snapshot>, p: Peer)
    ensures heard != [] && p in peers ==> EndsWith(FanOut(wire, peers, heard), p, heard[|heard| - 1])
    ensures heard == [] || p !in peers ==> Frames(FanOut(wire, peers, heard), p) == Frames(wire, p)
  {
    if heard != [] {
      var before := FanOut(wire, peers, heard[..|heard| - 1]);
      FanOutReaches(wire, peers, heard[..|heard| - 1], p);
      PushAllReaches(before, peers, heard[|heard| - 1], p);
    }
  }

  // ---------------------------------------------------------------- the mirror invariant

  /** The last frame sent to a live peer is the current snapshot exactly when the peer is not stale. */
  ghost predicate InStep(w: World, p: Peer) {
    && Frames(w.wire, p) != []
    && (EndsWith(w.wire, p, Snap(w.session)) <==> p !in w.stale)
  }

  ghost predicate MirrorInv(w: World) {
    && ChatInv(w.session)
    && MapInv(w.clients)
    && (w.socket == Connecting ==> w.clients == [])
    && (w.stale != {} ==> StreamingTurn(w.session).None?)
    && (forall p :: Live(w, p) ==> InStep(w, p))
  }

  lemma CommandStaysIdle(s: State, tools: Catalog, command: Command)
    requires Handle(s, tools, command).heard == s.heard && StreamingTurn(s).None?
    ensures StreamingTurn(Handle(s, tools, command)).None?
  {
    match command
    case SendText(content) =>
      if CanSend(s, content) {
        RunTurnTold(Persist(s, [Message(User, [Text(Strings.Trim(content))])]));
      }
    case StopTurn =>
    case RetryTurn =>
      if s.conversation.turn.None? {
        RunTurnTold(s);
      }
    case ClearSession =>
    case ApprovePrompt(id, approved, always) =>
    case InvokeTool(tool, input) =>
  }

  lemma DeliverStaysIdle(s: State, tools: Catalog, t: nat)
    requires DeliverTask(s, tools, t).heard == s.heard && StreamingTurn(s).None?
    ensures StreamingTurn(DeliverTask(s, tools, t)).None?
  {
    if t < |s.gate.tasks| && s.gate.tasks[t].phase.Settled? && s.gate.tasks[t].owner.Chat? && InFlight(s, t) {
      OutcomeTold(s.(gate := Deliver(s.gate, t)), tools, s.conversation.turn.value,
                  s.conversation.turn.value.phase.queue, s.gate.tasks[t].phase.outcome);
    }
  }

  lemma QuietIdles(s: State, tools: Catalog, e: Event)
    requires Quiet(s, tools, e)
    ensures StreamingTurn(Step(s, tools, e)).None?
  {
  }

  /** No step starts streaming silently, and a quiet one stops. */
  lemma SilenceStaysIdle(s: State, tools: Catalog, e: Event)
    requires Step(s, tools, e).heard == s.heard
    requires StreamingTurn(s).None? || Quiet(s, tools, e)
    ensures StreamingTurn(Step(s, tools, e)).None?
  {
    if Quiet(s, tools, e) {
      QuietIdles(s, tools, e);
    } else {
      match e
      case Client(command) =>
        if !s.disposed {
          CommandStaysIdle(s, tools, command);
        }
      case Engine(chunk) =>
      case EngineDone(thrown) =>
      case ResumeTask(t) =>
      case ToolDone(t, outcome) =>
      case DeliverOutcome(t) => DeliverStaysIdle(s, tools, t);
      case DisposeHost =>
      case Tick =>
    }
  }

  /** A quiet change leaves every live peer behind: nobody had been told the new snapshot before. */
  lemma QuietOutdates(w: World, tools: Catalog, e: Event, p: Peer)
    requires MirrorInv(w) && Live(w, p) && Quiet(w.session, tools, e)
    ensures !EndsWith(w.wire, p, Snap(Step(w.session, tools, e)))
  {
    assert InStep(w, p) && p !in w.stale;
    ChangesAreTold(w.session, tools, e);
  }

  lemma QuietInStep(w: World, tools: Catalog, e: Event, p: Peer)
    requires MirrorInv(w) && Live(w, p) && Quiet(w.session, tools, e)
    ensures InStep(Drive(w, tools, e), p)
  {
    assert InStep(w, p);
    ChangesAreTold(w.session, tools, e);
    QuietOutdates(w, tools, e, p);
    assert Heard(w.session, Step(w.session, tools, e)) == [];
  }

  lemma DriveInStep(w: World, tools: Catalog, e: Event, p: Peer)
    requires MirrorInv(w) && Live(w, p)
    ensures InStep(Drive(w, tools, e), p)
  {
    if Quiet(w.session, tools, e) {
      QuietInStep(w, tools, e, p);
    } else {
      var after := Step(w.session, tools, e);
      assert InStep(w, p);
      ChangesAreTold(w.session, tools, e);
      FanOutReaches(w.wire, Audience(w), Heard(w.session, after), p);
      assert Heard(w.session, after) == [] <==> |w.session.heard| == |after.heard|;
    }
  }

  lemma DriveKeepsMirror(w: World, tools: Catalog, e: Event)
    requires MirrorInv(w)
    ensures MirrorInv(Drive(w, tools, e))
  {
    var r := Drive(w, tools, e);
    StepKeepsChat(w.session, tools, e);
    ChangesAreTold(w.session, tools, e);
    if r.stale != {} {
      assert r.session.heard == w.session.heard;
      SilenceStaysIdle(w.session, tools, e);
    }
    forall p | Live(r, p) ensures InStep(r, p) {
      assert Live(w, p);
      DriveInStep(w, tools, e, p);
    }
  }

  lemma PushInStep(w: World, p: Peer, q: Peer)
    requires q == p || InStep(w, q)
    ensures InStep(Push(w, p), q)
  {
    FramesAppend(w.wire, Frame(p, Snap(w.session)), q);
  }

  /** Transitions that neither drive the session nor send: the audience can only shrink. */
  lemma FewerPeersKeepMirror(w: World, r: World)
    requires MirrorInv(w) && MapInv(r.clients)
    requires r.session == w.session && r.wire == w.wire && r.stale == w.stale
    requires r.socket == Connecting ==> r.clients == []
    requires forall p :: Live(r, p) ==> Live(w, p)
    ensures MirrorInv(r)
  {
    forall p | Live(r, p) ensures InStep(r, p) {
      assert InStep(w, p);
    }
  }

  lemma PushKeepsMirror(w: World, r: World, p: Peer)
    requires MirrorInv(w) && MapInv(r.clients)
    requires r.session == w.session && r.wire == w.wire && r.stale == w.stale
    requires r.socket == Connecting ==> r.clients == []
    requires forall q :: Live(r, q) ==> Live(w, q) || q == p
    ensures MirrorInv(Push(r, p))
  {
    forall q | Live(Push(r, p), q) ensures InStep(Push(r, p), q) {
      assert Live(r, q);
      assert q != p ==> InStep(w, q) && InStep(r, q);
      PushInStep(r, p, q);
    }
  }

  lemma StreamKeepsMirror(w: World, tools: Catalog, h: Happening)
    requires MirrorInv(w) && (h.StreamOpens? || h.StreamCommand? || h.StreamCloses?)
    ensures MirrorInv(Happen(w, tools, h))
  {
    match h
    case StreamOpens(n) =>
      if n !in w.streams {
        PushKeepsMirror(w, w.(streams := w.streams + [n]), Local(n));
      }
    case StreamCommand(n, command) =>
      if n in w.streams && command.Some? {
        var driven := Drive(w, tools, Client(command.value));
        DriveKeepsMirror(w, tools, Client(command.value));
        PushKeepsMirror(driven, driven, Local(n));
      }
    case StreamCloses(n) => FewerPeersKeepMirror(w, Happen(w, tools, h));
  }

  lemma SocketKeepsMirror(w: World, tools: Catalog, h: Happening)
    requires MirrorInv(w) && (h.SocketOpens? || h.SocketCloses? || h.CloseRelay? || h.Reads?)
    ensures MirrorInv(Happen(w, tools, h))
  {
    FewerPeersKeepMirror(w, Happen(w, tools, h));
  }

  lemma HappenKeepsMirror(w: World, tools: Catalog, h: Happening)
    requires MirrorInv(w)
    ensures MirrorInv(Happen(w, tools, h))
  {
    match h
    case Internal(e) => DriveKeepsMirror(w, tools, e);
    case FromRelay(p) => PresenceKeepsMirror(w, tools, p);
    case RemoteCommand(_, command) =>
      if command.Some? {
        DriveKeepsMirror(w, tools, Client(command.value));
      }
    case StreamOpens(_) => StreamKeepsMirror(w, tools, h);
    case StreamCommand(_, _) => StreamKeepsMirror(w, tools, h);
    case StreamCloses(_) => StreamKeepsMirror(w, tools, h);
    case _ => SocketKeepsMirror(w, tools, h);
  }

  lemma PresenceKeepsMirror(w: World, tools: Catalog, p: Presence)
    requires MirrorInv(w)
    ensures MirrorInv(Happen(w, tools, FromRelay(p)))
  {
    if w.socket == Open {
      match p
      case Attach(e) =>
        SetKeepsMap(w.clients, e);
        if w.subscribed {
          PushKeepsMirror(w, w.(clients := Set(w.clients, e)), Remote(e));
        } else {
          FewerPeersKeepMirror(w, Happen(w, tools, FromRelay(p)));
        }
      case Detach(e) =>
        DeleteKeepsMap(w.clients, Key(e));
        FewerPeersKeepMirror(w, Happen(w, tools, FromRelay(p)));
      case SocketClose =>
    }
  }

  lemma {:induction false} HistoryKeepsMirror(w: World, tools: Catalog, hs: seq<Happening>)
    requires MirrorInv(w)
    ensures MirrorInv(History(w, tools, hs))
  {
    if hs != [] {
      HistoryKeepsMirror(w, tools, hs[..|hs| - 1]);
      HappenKeepsMirror(History(w, tools, hs[..|hs| - 1]), tools, hs[|hs| - 1]);
    }
  }

  // ---------------------------------------------------------------- main results

  /** A host just booted, its relay socket still connecting and nobody attached. */
  ghost predicate Launched(w: World) {
    && ChatInv(w.session) && w.socket == Connecting
    && w.clients == [] && w.streams == [] && w.stale == {} && w.wire == [] && w.read == map[]
  }

  lemma LivePeerMirrors(r: World, p: Peer)
    requires InStep(r, p)
    ensures EndsWith(r.wire, p, Snap(r.session)) <==> p !in r.stale
    ensures ReadCount(r, p) == |Frames(r.wire, p)| ==>
              LatestAt(r, p).Some? && (LatestAt(r, p).value == Snap(r.session) <==> p !in r.stale)
  {
  }

  lemma LaunchedInStep(w: World)
    requires Launched(w)
    ensures MirrorInv(w)
  {
  }

  /** Over every history, for every attached endpoint on an open relay socket and every open stream: the
      last frame sent equals the host's current snapshot if and only if no quiet step end has happened
      since anything was last sent to it; and a client that has read all its frames holds that frame. */
  lemma PeersMirrorTheHost(w: World, tools: Catalog, hs: seq<Happening>, p: Peer)
    requires Launched(w) && Live(History(w, tools, hs), p)
    ensures
      var r := History(w, tools, hs);
      && (EndsWith(r.wire, p, Snap(r.session)) <==> p !in r.stale)
      && (ReadCount(r, p) == |Frames(r.wire, p)| ==>
            LatestAt(r, p).Some? && (LatestAt(r, p).value == Snap(r.session) <==> p !in r.stale))
  {
    LaunchedInStep(w);
    HistoryKeepsMirror(w, tools, hs);
    LivePeerMirrors(History(w, tools, hs), p);
  }

  /** What makes a peer stale, and what heals it. */
  lemma StalenessIsQuiet(w: World, tools: Catalog, h: Happening, p: Peer)
    requires MirrorInv(w) && p in Happen(w, tools, h).stale && p !in w.stale
    ensures Live(w, p)
    ensures h.Internal? && Quiet(w.session, tools, h.e)
  {
  }

  lemma NoticeHealsAll(w: World, tools: Catalog, e: Event)
    requires MirrorInv(w) && |w.session.heard| < |Step(w.session, tools, e).heard|
    ensures Drive(w, tools, e).stale == {}
  {
    ChangesAreTold(w.session, tools, e);
  }

  // ---------------------------------------------------------------- who receives frames

  lemma {:induction false} PushAllAddressed(wire: seq<Frame>, peers: seq<Peer>, snapshot: Snapshot)
    ensures wire <= PushAll(wire, peers, snapshot)
    ensures forall i :: |wire| <= i < |PushAll(wire, peers, snapshot)| ==>
              PushAll(wire, peers, snapshot)[i].peer in peers
    decreases |peers|
  {
    if peers != [] {
      PushAllAddressed(wire + [Frame(peers[0], snapshot)], peers[1..], snapshot);
    }
  }

  lemma {:induction false} FanOutAddressed(wire: seq<Frame>, peers: seq<Peer>, heard: seq<Snapshot>)
    ensures wire <= FanOut(wire, peers, heard)
    ensures forall i :: |wire| <= i < |FanOut(wire, peers, heard)| ==> FanOut(wire, peers, heard)[i].peer in peers
  {
    if heard != [] {
      FanOutAddressed(wire, peers, heard[..|heard| - 1]);
      PushAllAddressed(FanOut(wire, peers, heard[..|heard| - 1]), peers, heard[|heard| - 1]);
    }
  }

  ghost predicate RelayClosed(w: World) {
    !w.subscribed && w.clients == [] && (w.socket == Closing || w.socket == Closed)
  }

  /** Frames already sent are never retracted, and a new one goes to a peer that is live before or
      after the step. */
  lemma FramesGoToLivePeers(w: World, tools: Catalog, h: Happening)
    ensures w.wire <= Happen(w, tools, h).wire
    ensures forall i :: |w.wire| <= i < |Happen(w, tools, h).wire| ==>
              Live(w, Happen(w, tools, h).wire[i].peer) || Live(Happen(w, tools, h), Happen(w, tools, h).wire[i].peer)
  {
    var r := Happen(w, tools, h);
    match h
    case Internal(e) => FanOutAddressed(w.wire, Audience(w), Heard(w.session, r.session));
    case RemoteCommand(_, command) =>
      if command.Some? {
        FanOutAddressed(w.wire, Audience(w), Heard(w.session, Step(w.session, tools, Client(command.value))));
      }
    case StreamCommand(n, command) =>
      if command.Some? {
        FanOutAddressed(w.wire, Audience(w), Heard(w.session, Step(w.session, tools, Client(command.value))));
      }
    case FromRelay(p) =>
      if p.Attach? && w.socket == Open && w.subscribed {
        AttachedIsLive(w, p.e);
      }
    case _ =>
  }

  lemma AttachedIsLive(w: World, e: Endpoint)
    requires w.socket == Open && w.subscribed
    ensures Live(w.(clients := Set(w.clients, e)), Remote(e))
  {
    var clients := Set(w.clients, e);
    var k := Find(w.clients, Key(e));
    assert clients[k].endpoint == e;
  }

  lemma ClosedStaysClosed(w: World, tools: Catalog, h: Happening)
    requires RelayClosed(w)
    ensures RelayClosed(Happen(w, tools, h))
  {
  }

  lemma {:induction false} RemoteFramesStop(w: World, tools: Catalog, hs: seq<Happening>, e: Endpoint)
    requires RelayClosed(w)
    ensures RelayClosed(History(w, tools, hs))
    ensures Frames(History(w, tools, hs).wire, Remote(e)) == Frames(w.wire, Remote(e))
  {
    if hs != [] {
      var before := History(w, tools, hs[..|hs| - 1]);
      RemoteFramesStop(w, tools, hs[..|hs| - 1], e);
      ClosedStaysClosed(before, tools, hs[|hs| - 1]);
      NoRemoteFrame(before, tools, hs[|hs| - 1], e);
    }
  }

  lemma DriveSendsNone(w: World, tools: Catalog, event: Event, e: Endpoint)
    requires RelayClosed(w)
    ensures Frames(Drive(w, tools, event).wire, Remote(e)) == Frames(w.wire, Remote(e))
  {
    FanOutReaches(w.wire, Audience(w), Heard(w.session, Step(w.session, tools, event)), Remote(e));
  }

  lemma StreamSendsNone(w: World, tools: Catalog, n: nat, command: Option<Command>, e: Endpoint)
    requires RelayClosed(w)
    ensures Frames(Happen(w, tools, StreamCommand(n, command)).wire, Remote(e)) == Frames(w.wire, Remote(e))
  {
    if command.Some? {
      DriveSendsNone(w, tools, Client(command.value), e);
      var driven := Drive(w, tools, Client(command.value));
      FramesAppend(driven.wire, Frame(Local(n), Snap(driven.session)), Remote(e));
    }
  }

  lemma NoRemoteFrame(w: World, tools: Catalog, h: Happening, e: Endpoint)
    requires RelayClosed(w)
    ensures Frames(Happen(w, tools, h).wire, Remote(e)) == Frames(w.wire, Remote(e))
  {
    var p := Remote(e);
    match h
    case Internal(event) => DriveSendsNone(w, tools, event, e);
    case StreamCommand(n, command) => StreamSendsNone(w, tools, n, command, e);
    case StreamOpens(n) => FramesAppend(w.wire, Frame(Local(n), Snap(w.session)), p);
    case _ =>
  }

  // ---------------------------------------------------------------- the map and the attached set

  /** The presence frames a happening handles: relay frames on an open socket, and each end of the map. */
  function PresencesOf(w: World, h: Happening): seq<Presence> {
    match h
    case FromRelay(p) => if w.socket == Open && !p.SocketClose? then [p] else []
    case SocketCloses(finished) => if finished then [SocketClose] else []
    case CloseRelay => [SocketClose]
    case _ => []
  }

  function Presences(w: World, tools: Catalog, hs: seq<Happening>): seq<Presence> {
    if hs == [] then []
    else
      var before := hs[..|hs| - 1];
      Presences(w, tools, before) + PresencesOf(History(w, tools, before), hs[|hs| - 1])
  }

  lemma HappenTraces(w: World, tools: Catalog, h: Happening, ps: seq<Presence>)
    requires w.clients == Trace(ps)
    ensures Happen(w, tools, h).clients == Trace(ps + PresencesOf(w, h))
  {
    match h
    case FromRelay(p) =>
      if w.socket == Open && !p.SocketClose? {
        TraceSnoc(ps, p);
      } else {
        assert ps + [] == ps;
      }
    case CloseRelay => TraceSnoc(ps, SocketClose);
    case SocketCloses(finished) =>
      if finished {
        TraceSnoc(ps, SocketClose);
      } else {
        assert ps + [] == ps;
      }
    case _ => assert ps + [] == ps;
  }

  lemma TraceSnoc(ps: seq<Presence>, p: Presence)
    ensures Trace(ps + [p]) == RelayClients.Apply(Trace(ps), p)
  {
    assert (ps + [p])[..|ps|] == ps;
  }

  /** Over every history the host's map is the trace of the presence frames it handled. */
  lemma {:induction false} ClientsAreTraced(w: World, tools: Catalog, hs: seq<Happening>)
    requires w.clients == []
    ensures History(w, tools, hs).clients == Trace(Presences(w, tools, hs))
  {
    if hs != [] {
      var before := hs[..|hs| - 1];
      ClientsAreTraced(w, tools, before);
      HappenTraces(History(w, tools, before), tools, hs[|hs| - 1], Presences(w, tools, before));
    }
  }

  ghost predicate Listed(clients: seq<ClientEntry>, e: Endpoint) {
    exists c :: c in clients && c.endpoint == e
  }

  lemma RemoteIsListed(w: World, e: Endpoint)
    ensures Live(w, Remote(e)) <==> w.subscribed && w.socket == Open && Listed(w.clients, e)
  {
    if c :| c in w.clients && c.endpoint == e {
      var i :| 0 <= i < |w.clients| && w.clients[i] == c;
      assert w.clients[i].endpoint == e;
    }
    if Remote(e) in Remotes(w.clients) {
      var i :| 0 <= i < |w.clients| && w.clients[i].endpoint == e;
      assert w.clients[i] in w.clients;
    }
  }

  lemma RefinedIsListed(ps: seq<Presence>, e: Endpoint)
    requires Refines(ps)
    ensures Listed(Trace(ps), e) <==> e in Attached(ps)
  {
    TracedAreAttached(ps);
    if e in Attached(ps) {
      assert ClientEntry(Key(e), e) in Trace(ps);
    }
  }

  /** While no two endpoints share a key, the relay reaches exactly the attached ones, as long as its
      socket is open and it has not been closed. */
  lemma LiveIffAttached(w: World, tools: Catalog, hs: seq<Happening>, universe: set<Endpoint>, e: Endpoint)
    requires w.clients == [] && Within(Presences(w, tools, hs), universe) && KeysTellApart(universe)
    ensures
      var r := History(w, tools, hs);
      Live(r, Remote(e)) <==> e in Attached(Presences(w, tools, hs)) && r.subscribed && r.socket == Open
  {
    ClientsAreTraced(w, tools, hs);
    RefinesIffKeysTellApart(universe);
    RemoteIsListed(History(w, tools, hs), e);
    RefinedIsListed(Presences(w, tools, hs), e);
  }

  /** Whatever the keys, over every history: a frame sent to a remote endpoint in its last step goes to one
      that is attached before or after that step. */
  lemma FramesGoToAttached(w: World, tools: Catalog, hs: seq<Happening>, h: Happening, i: nat, e: Endpoint)
    requires w.clients == []
    requires |History(w, tools, hs).wire| <= i < |History(w, tools, hs + [h]).wire|
    requires History(w, tools, hs + [h]).wire[i].peer == Remote(e)
    ensures e in Attached(Presences(w, tools, hs)) || e in Attached(Presences(w, tools, hs + [h]))
  {
    var r := History(w, tools, hs);
    assert (hs + [h])[..|hs|] == hs;
    FramesGoToLivePeers(r, tools, h);
    RemoteIsListed(r, e);
    RemoteIsListed(Happen(r, tools, h), e);
    ClientsAreTraced(w, tools, hs);
    ClientsAreTraced(w, tools, hs + [h]);
    TracedAreAttached(Presences(w, tools, hs));
    TracedAreAttached(Presences(w, tools, hs + [h]));
  }

  /** After `close()` the relay transport is silent for good, whatever the session goes on doing. */
  lemma SilentAfterClose(w: World, tools: Catalog, later: seq<Happening>, e: Endpoint)
    ensures
      var closed := Happen(w, tools, CloseRelay);
      Frames(History(closed, tools, later).wire, Remote(e)) == Frames(w.wire, Remote(e))
  {
    RemoteFramesStop(Happen(w, tools, CloseRelay), tools, later, e);
  }
}
