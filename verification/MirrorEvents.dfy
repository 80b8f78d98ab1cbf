/**
 What of a history reaches the session: its own events, the well-formed commands of attached sockets, and
 nothing else. Which sockets are open is read off the history alone.
 */
module MirrorEvents {
  import opened Prelude
  import opened ToolGate
  import opened Session
  import opened RelayClients
  import opened Mirror

  predicate EndsRelay(h: Happening) {
    h.SocketCloses? || h.CloseRelay?
  }

  ghost predicate RelayEnded(hs: seq<Happening>) {
    exists h :: h in hs && EndsRelay(h)
  }

  /** The relay socket has opened, and neither end has begun to close it. */
  ghost predicate RelayOpen(hs: seq<Happening>) {
    SocketOpens in hs && !RelayEnded(hs)
  }

  /** The last that was heard of stream `n` is that it opened. */
  predicate StreamOpen(hs: seq<Happening>, n: nat) {
    if hs == [] then false
    else match hs[|hs| - 1]
      case StreamOpens(m) => m == n || StreamOpen(hs[..|hs| - 1], n)
      case StreamCloses(m) => m != n && StreamOpen(hs[..|hs| - 1], n)
      case _ => StreamOpen(hs[..|hs| - 1], n)
  }

  /** The session's part of one happening, after `before`. */
  ghost function EventOf(before: seq<Happening>, h: Happening): seq<Event> {
    match h
    case Internal(e) => [e]
    case RemoteCommand(_, Some(command)) => if RelayOpen(before) then [Client(command)] else []
    case StreamCommand(n, Some(command)) => if StreamOpen(before, n) then [Client(command)] else []
    case _ => []
  }

  ghost function EventsOf(hs: seq<Happening>): seq<Event> {
    if hs == [] then [] else EventsOf(hs[..|hs| - 1]) + EventOf(hs[..|hs| - 1], hs[|hs| - 1])
  }

  lemma RelayEndedSnoc(hs: seq<Happening>, h: Happening)
    ensures RelayEnded(hs + [h]) <==> RelayEnded(hs) || EndsRelay(h)
    ensures SocketOpens in hs + [h] <==> SocketOpens in hs || h == SocketOpens
  {
    if RelayEnded(hs) {
      var e :| e in hs && EndsRelay(e);
      assert e in hs + [h];
    }
    assert (hs + [h])[|hs|] == h;
  }

  lemma HappenMovesSocket(w: World, tools: Catalog, h: Happening)
    ensures
      var r := Happen(w, tools, h);
      && (r.socket == Open <==> !EndsRelay(h) && (w.socket == Open || (w.socket == Connecting && h == SocketOpens)))
      && (r.socket == Connecting <==> w.socket == Connecting && h != SocketOpens && !EndsRelay(h))
      && (r.subscribed <==> w.subscribed && h != CloseRelay)
  {
  }

  lemma HappenMovesStreams(w: World, tools: Catalog, h: Happening, n: nat)
    ensures n in Happen(w, tools, h).streams <==>
            h == StreamOpens(n) || (n in w.streams && h != StreamCloses(n))
  {
  }

  /** What a happening makes of the session, given which sockets it comes over are open. */
  lemma HappenSteps(w: World, tools: Catalog, before: seq<Happening>, h: Happening)
    requires w.socket == Open <==> RelayOpen(before)
    requires h.StreamCommand? ==> (h.stream in w.streams <==> StreamOpen(before, h.stream))
    ensures
      var events := EventOf(before, h);
      && |events| <= 1
      && Happen(w, tools, h).session == if events == [] then w.session else Step(w.session, tools, events[0])
  {
  }

  lemma {:induction false} SocketFollows(w: World, tools: Catalog, hs: seq<Happening>)
    requires w.socket == Connecting && w.subscribed
    ensures History(w, tools, hs).socket == Open <==> RelayOpen(hs)
    ensures History(w, tools, hs).socket == Connecting <==> SocketOpens !in hs && !RelayEnded(hs)
    ensures History(w, tools, hs).subscribed <==> CloseRelay !in hs
  {
    if hs != [] {
      var before, h := hs[..|hs| - 1], hs[|hs| - 1];
      assert hs == before + [h];
      SocketFollows(w, tools, before);
      RelayEndedSnoc(before, h);
      HappenMovesSocket(History(w, tools, before), tools, h);
    }
  }

  lemma {:induction false} StreamsFollow(w: World, tools: Catalog, hs: seq<Happening>, n: nat)
    requires w.streams == []
    ensures n in History(w, tools, hs).streams <==> StreamOpen(hs, n)
  {
    if hs != [] {
      StreamsFollow(w, tools, hs[..|hs| - 1], n);
      HappenMovesStreams(History(w, tools, hs[..|hs| - 1]), tools, hs[|hs| - 1], n);
    }
  }

  lemma RunSnoc(s: State, tools: Catalog, events: seq<Event>, e: Event)
    ensures Run(s, tools, events + [e]) == Step(Run(s, tools, events), tools, e)
  {
    assert (events + [e])[..|events|] == events;
  }

  /** Over every history the session is where the run of exactly these events takes it: a well-formed command
      received over the open relay socket or an open stream is applied once, in order; one that is malformed, or
      comes over anything else, never is; connecting, attaching, reading and closing do not touch it. */
  lemma {:induction false} SessionIsTheRun(w: World, tools: Catalog, hs: seq<Happening>)
    requires w.socket == Connecting && w.subscribed && w.streams == []
    ensures History(w, tools, hs).session == Run(w.session, tools, EventsOf(hs))
  {
    if hs != [] {
      var before, h := hs[..|hs| - 1], hs[|hs| - 1];
      SessionIsTheRun(w, tools, before);
      SocketFollows(w, tools, before);
      if h.StreamCommand? {
        StreamsFollow(w, tools, before, h.stream);
      }
      HappenSteps(History(w, tools, before), tools, before, h);
      var events := EventsOf(before);
      if EventOf(before, h) == [] {
        assert events + [] == events;
      } else {
        RunSnoc(w.session, tools, events, EventOf(before, h)[0]);
      }
    }
  }

  /** Notifications reach exactly the open streams, and, while no two endpoints share a key, exactly the attached
      endpoints of an open relay socket. */
  lemma ReachedIff(w: World, tools: Catalog, hs: seq<Happening>, universe: set<Endpoint>, p: Peer)
    requires w.socket == Connecting && w.subscribed && w.streams == [] && w.clients == []
    requires Within(Presences(w, tools, hs), universe) && KeysTellApart(universe)
    ensures Live(History(w, tools, hs), p) <==>
            match p
            case Local(n) => StreamOpen(hs, n)
            case Remote(e) => RelayOpen(hs) && e in Attached(Presences(w, tools, hs))
  {
    match p
    case Local(n) => StreamsFollow(w, tools, hs, n);
    case Remote(e) =>
      SocketFollows(w, tools, hs);
      LiveIffAttached(w, tools, hs, universe, e);
  }

  // ---------------------------------------------------------------- answers to one peer

  /** Whoever these happenings speak for, if it is heard: it is answered at once. */
  function AnsweredPeer(w: World, h: Happening): Option<Peer> {
    match h
    case FromRelay(Attach(e)) => if w.socket == Open && w.subscribed then Some(Remote(e)) else None
    case StreamOpens(n) => if n !in w.streams then Some(Local(n)) else None
    case StreamCommand(n, Some(_)) => if n in w.streams then Some(Local(n)) else None
    case _ => None
  }

  /** More was sent to `p`, and last the snapshot as it now is. */
  ghost predicate AnsweredTo(w: World, r: World, p: Peer) {
    && Frames(w.wire, p) < Frames(r.wire, p)
    && Mirror.EndsWith(r.wire, p, Snap(r.session))
    && p !in r.stale
  }

  lemma PushAnswers(w: World, p: Peer, before: World)
    requires Frames(before.wire, p) <= Frames(w.wire, p)
    ensures AnsweredTo(before, Mirror.Push(w, p), p)
  {
    FramesAppend(w.wire, Frame(p, Snap(w.session)), p);
  }

  lemma {:induction false} FramesGrow(wire: seq<Frame>, longer: seq<Frame>, p: Peer)
    requires wire <= longer
    ensures Frames(wire, p) <= Frames(longer, p)
    decreases |longer|
  {
    if |wire| < |longer| {
      FramesGrow(wire, longer[..|longer| - 1], p);
    } else {
      assert wire == longer;
    }
  }

  lemma CommandIsAnswered(w: World, tools: Catalog, n: nat, command: Command)
    ensures AnsweredTo(w, Mirror.Push(Drive(w, tools, Client(command)), Local(n)), Local(n))
  {
    var driven := Drive(w, tools, Client(command));
    FanOutAddressed(w.wire, Audience(w), Heard(w.session, driven.session));
    FramesGrow(w.wire, driven.wire, Local(n));
    PushAnswers(driven, Local(n), w);
  }

  /** An endpoint that attaches, a stream that opens and a stream that sends a command are answered at once: after
      whatever was sent to them before they get the snapshot as the happening leaves it. */
  lemma AnsweredAtOnce(w: World, tools: Catalog, h: Happening)
    ensures AnsweredPeer(w, h).Some? ==> AnsweredTo(w, Happen(w, tools, h), AnsweredPeer(w, h).value)
  {
    match h
    case FromRelay(Attach(e)) => PushAnswers(w.(clients := Set(w.clients, e)), Remote(e), w);
    case StreamOpens(n) => PushAnswers(w.(streams := w.streams + [n]), Local(n), w);
    case StreamCommand(n, Some(command)) => CommandIsAnswered(w, tools, n, command);
    case _ =>
  }
}
