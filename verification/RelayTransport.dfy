/**
 The two ends of the relay transport as objects: `attachHostToRelay`
 (apps/epicenter/src/attach-relay-host.ts) over a host object, and `createAttachRelayClient`
 (apps/epicenter/src/attach-relay-client.ts). An object matches a world of `Mirror` when it holds that
 world's session, socket, clients and relay frames; every handler is proved to take the world's step.
 */
module RelayTransport {
  import opened Prelude
  import opened ToolGate
  import opened Session
  import opened RelayClients
  import opened Mirror
  import opened QueryHostObject

  // ---------------------------------------------------------------- the relay's share of the wire

  function RelayFrames(wire: seq<Frame>): seq<Frame> {
    if wire == [] then []
    else
      var last := wire[|wire| - 1];
      RelayFrames(wire[..|wire| - 1]) + if last.peer.Remote? then [last] else []
  }

  function RelayPeers(peers: seq<Peer>): seq<Peer> {
    if peers == [] then [] else (if peers[0].Remote? then [peers[0]] else []) + RelayPeers(peers[1..])
  }

  lemma RelayAppend(wire: seq<Frame>, frame: Frame)
    ensures RelayFrames(wire + [frame]) == RelayFrames(wire) + if frame.peer.Remote? then [frame] else []
  {
    assert (wire + [frame])[..|wire|] == wire;
  }

  lemma {:induction false} RelayPushAll(wire: seq<Frame>, peers: seq<Peer>, snapshot: Snapshot)
    ensures RelayFrames(PushAll(wire, peers, snapshot)) == PushAll(RelayFrames(wire), RelayPeers(peers), snapshot)
    decreases |peers|
  {
    if peers != [] {
      var frame := Frame(peers[0], snapshot);
      RelayAppend(wire, frame);
      RelayPushAll(wire + [frame], peers[1..], snapshot);
      if peers[0].Remote? {
        assert RelayPeers(peers)[1..] == RelayPeers(peers[1..]);
      } else {
        assert RelayFrames(wire) + [] == RelayFrames(wire) && RelayPeers(peers) == RelayPeers(peers[1..]);
      }
    }
  }

  lemma {:induction false} RelayFanOut(wire: seq<Frame>, peers: seq<Peer>, news: seq<Snapshot>)
    ensures RelayFrames(FanOut(wire, peers, news)) == FanOut(RelayFrames(wire), RelayPeers(peers), news)
  {
    if news != [] {
      RelayFanOut(wire, peers, news[..|news| - 1]);
      RelayPushAll(FanOut(wire, peers, news[..|news| - 1]), peers, news[|news| - 1]);
    }
  }

  lemma {:induction false} PeersSplit(a: seq<Peer>, b: seq<Peer>)
    ensures RelayPeers(a + b) == RelayPeers(a) + RelayPeers(b)
  {
    if a == [] {
      assert a + b == b;
    } else {
      assert (a + b)[0] == a[0] && (a + b)[1..] == a[1..] + b;
      PeersSplit(a[1..], b);
    }
  }

  lemma {:induction false} RemotesAreRelayed(clients: seq<ClientEntry>)
    ensures RelayPeers(Remotes(clients)) == Remotes(clients)
  {
    if clients != [] {
      RemotesAreRelayed(clients[1..]);
      assert Remotes(clients)[1..] == Remotes(clients[1..]);
    }
  }

  lemma {:induction false} LocalsAreNot(streams: seq<nat>)
    ensures RelayPeers(Locals(streams)) == []
  {
    if streams != [] {
      LocalsAreNot(streams[1..]);
      assert Locals(streams)[1..] == Locals(streams[1..]);
    }
  }

  /** Of a notification's audience the relay carries the frames of attached clients. */
  lemma RelayAudience(w: World)
    ensures RelayPeers(Audience(w)) == if w.subscribed && w.socket == Open then Remotes(w.clients) else []
  {
    var remotes := if w.subscribed && w.socket == Open then Remotes(w.clients) else [];
    PeersSplit(remotes, Locals(w.streams));
    RemotesAreRelayed(w.clients);
    LocalsAreNot(w.streams);
    assert remotes + [] == remotes && RelayPeers([]) == [];
  }

  lemma {:induction false} NoPeersNoFrames(wire: seq<Frame>, news: seq<Snapshot>)
    ensures FanOut(wire, [], news) == wire
  {
    if news != [] {
      NoPeersNoFrames(wire, news[..|news| - 1]);
    }
  }

  /** The relay's part of driving one event. */
  lemma DrivenFrames(w: World, tools: Catalog, e: Event)
    ensures
      var r, peers := Drive(w, tools, e), if w.subscribed && w.socket == Open then Remotes(w.clients) else [];
      && RelayFrames(r.wire) == FanOut(RelayFrames(w.wire), peers, Heard(w.session, r.session))
      && r.session == Step(w.session, tools, e)
      && r.clients == w.clients && r.socket == w.socket && r.subscribed == w.subscribed
  {
    RelayAudience(w);
    RelayFanOut(w.wire, Audience(w), Heard(w.session, Step(w.session, tools, e)));
  }

  // ---------------------------------------------------------------- the host's end

  class AttachRelayHost {
    const host: QueryHost
    var clients: seq<ClientEntry>
    var socket: Socket
    var subscribed: bool
    var sent: seq<Frame>

    /** The transport's own part of a world. */
    ghost predicate Carries(w: World)
      reads this
    {
      && clients == w.clients && socket == w.socket && subscribed == w.subscribed && sent == RelayFrames(w.wire)
      && (socket == Connecting || socket == Open ==> subscribed)
    }

    ghost predicate Matches(w: World)
      reads this, host
    {
      Carries(w) && host.Now() == w.session
    }

    constructor (host: QueryHost)
      ensures this.host == host
      ensures forall w: World ::
                w.session == host.Now() && w.socket == Connecting && w.subscribed && w.clients == [] && w.wire == [] ==>
                  Matches(w)
    {
      this.host := host;
      clients, socket, subscribed, sent := [], Connecting, true, [];
    }

    method OnOpen(ghost w: World)
      requires Matches(w)
      modifies this`socket
      ensures Matches(Happen(w, host.tools, SocketOpens))
    {
      if socket == Connecting {
        socket := Open;
      }
    }

    /** The socket itself starts to close; no handler runs. */
    method OnClosing(ghost w: World)
      requires Matches(w)
      modifies this`socket
      ensures Matches(Happen(w, host.tools, SocketCloses(false)))
    {
      if socket != Closed {
        socket := Closing;
      }
    }

    method OnClose(ghost w: World)
      requires Matches(w)
      modifies this`clients, this`socket
      ensures Matches(Happen(w, host.tools, SocketCloses(true)))
    {
      socket := Closed;
      clients := [];
    }

    method Close(ghost w: World)
      requires Matches(w)
      modifies this`clients, this`socket, this`subscribed
      ensures Matches(Happen(w, host.tools, CloseRelay))
    {
      subscribed := false;
      clients := [];
      if socket != Closed {
        socket := Closing;
      }
    }

    /** `sendToClient`: dropped unless the socket is open. */
    method SendToClient(e: Endpoint, snapshot: Snapshot)
      modifies this`sent
      ensures sent == old(sent) + if socket == Open then [Frame(Remote(e), snapshot)] else []
    {
      if socket != Open {
        return;
      }
      sent := sent + [Frame(Remote(e), snapshot)];
    }

    /** The host subscription: one frame to each attached client. */
    method OnHostChange(snapshot: Snapshot)
      modifies this`sent
      ensures sent == if socket == Open then PushAll(old(sent), Remotes(clients), snapshot) else old(sent)
    {
      for i := 0 to |clients|
        invariant socket != Open ==> sent == old(sent)
        invariant socket == Open ==>
                    PushAll(sent, Remotes(clients[i..]), snapshot) == PushAll(old(sent), Remotes(clients), snapshot)
      {
        assert clients[i..][1..] == clients[i + 1..];
        SendToClient(clients[i].endpoint, snapshot);
      }
    }

    /** What the subscription does about the notifications since some point: it is called for each. */
    method HearAll(news: seq<Snapshot>)
      modifies this`sent
      ensures sent ==
              FanOut(old(sent), if subscribed && socket == Open then Remotes(clients) else [], news)
    {
      if !subscribed {
        NoPeersNoFrames(sent, news);
        return;
      }
      ghost var peers := if socket == Open then Remotes(clients) else [];
      for i := 0 to |news|
        invariant sent == FanOut(old(sent), peers, news[..i])
      {
        assert news[..i + 1][..i] == news[..i];
        OnHostChange(news[i]);
      }
      assert news[..|news|] == news;
    }

    /** One event of the session, and the subscription's calls during it. */
    method HearSince(since: nat, ghost w: World, ghost e: Event)
      requires Carries(w) && host.Now() == Step(w.session, host.tools, e)
      requires since == |w.session.heard| <= |host.heard|
      modifies this`sent
      ensures Matches(Drive(w, host.tools, e))
    {
      HearAll(host.heard[since..]);
      DrivenFrames(w, host.tools, e);
    }

    /** `onmessage` for an attach or detach frame, which arrives on an open socket: the map follows, and an
        attach is answered with the host's snapshot. */
    method OnPresence(p: Presence, ghost w: World)
      requires Matches(w) && socket == Open && !p.SocketClose?
      modifies this`clients, this`sent
      ensures Matches(Happen(w, host.tools, FromRelay(p)))
    {
      if p.Attach? {
        clients := Set(clients, p.e);
        SendToClient(p.e, Snap(host.Now()));
        RelayAppend(w.wire, Frame(Remote(p.e), Snap(w.session)));
      } else {
        clients := Delete(clients, Key(p.e));
      }
    }

    /** `onmessage` for a command payload: apply it to the one session; its notifications fan out. */
    method OnCommand(from: Endpoint, command: Option<Command>, ghost w: World)
      requires Matches(w) && socket == Open && !host.disposed
      modifies this`sent, host
      ensures Matches(Happen(w, host.tools, RemoteCommand(from, command)))
      ensures host.Now() ==
              if command.None? then old(host.Now()) else Handle(old(host.Now()), host.tools, command.value)
    {
      if command.None? {
        return;
      }
      var since := |host.heard|;
      var ok := host.HandleCommand(command.value);
      HeardGrows(w.session, host.tools, command.value);
      HearSince(since, w, Client(command.value));
    }
  }

  lemma HeardGrows(s: State, tools: Catalog, command: Command)
    ensures |s.heard| <= |Handle(s, tools, command).heard|
  {
  }

  // ---------------------------------------------------------------- the client's end

  /** What a delivery adds to the record of (listener, snapshot) calls. */
  function Shown(listeners: seq<nat>, snapshot: Snapshot): seq<(nat, Snapshot)> {
    if listeners == [] then []
    else Shown(listeners[..|listeners| - 1], snapshot) + [(listeners[|listeners| - 1], snapshot)]
  }

  class AttachRelayClient {
    var latest: Option<Snapshot>
    var listeners: seq<nat>
    var observed: seq<(nat, Snapshot)>

    constructor ()
      ensures latest == None && listeners == [] && observed == []
    {
      latest, listeners, observed := None, [], [];
    }

    /** `deliver`: a frame that is not a snapshot drops; any other becomes the latest, shown to each
        listener once. Reading the next frame of its queue keeps the client at the world's latest. */
    method Deliver(event: Option<Snapshot>, ghost w: World, ghost tools: Catalog, ghost p: Peer)
      requires event.Some? ==>
                 ReadCount(w, p) < |Frames(w.wire, p)| && event.value == Frames(w.wire, p)[ReadCount(w, p)]
      modifies this`latest, this`observed
      ensures event.Some? ==> latest == LatestAt(Happen(w, tools, Reads(p)), p)
      ensures event.None? ==> latest == old(latest)
      ensures observed == old(observed) + if event.Some? then Shown(listeners, event.value) else []
    {
      if event.None? {
        return;
      }
      latest := event;
      for i := 0 to |listeners|
        invariant latest == event
        invariant observed == old(observed) + Shown(listeners[..i], event.value)
      {
        assert listeners[..i + 1][..i] == listeners[..i];
        observed := observed + [(listeners[i], event.value)];
      }
      assert listeners[..|listeners|] == listeners;
    }
  }
}
