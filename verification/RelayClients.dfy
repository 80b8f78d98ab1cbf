/**
 The keyed client map of the relay host (apps/epicenter/src/attach-relay-host.ts): an insertion-ordered
 map from `clientKey(deviceId, attachId)` to the attached endpoint, driven by attach, detach and
 socket-close frames.
 */
module RelayClients {
  datatype Endpoint = Endpoint(deviceId: string, attachId: string)

  /** `clientKey`: the two ids joined by one space. */
  function Key(e: Endpoint): string {
    e.deviceId + " " + e.attachId
  }

  /** The `clients` map in insertion order: keys of the entries are pairwise distinct. */
  datatype ClientEntry = ClientEntry(key: string, endpoint: Endpoint)

  function Find(clients: seq<ClientEntry>, key: string): (k: nat)
    ensures k <= |clients|
    ensures k < |clients| ==> clients[k].key == key
    ensures forall j :: 0 <= j < k ==> clients[j].key != key
  {
    if clients == [] || clients[0].key == key then 0 else 1 + Find(clients[1..], key)
  }

  /** `Map.set`: overwrite in place, or append. */
  function Set(clients: seq<ClientEntry>, e: Endpoint): seq<ClientEntry> {
    var k := Find(clients, Key(e));
    if k < |clients| then clients[k := ClientEntry(Key(e), e)] else clients + [ClientEntry(Key(e), e)]
  }

  function Delete(clients: seq<ClientEntry>, key: string): seq<ClientEntry> {
    var k := Find(clients, key);
    if k < |clients| then clients[..k] + clients[k + 1..] else clients
  }

  ghost predicate MapInv(clients: seq<ClientEntry>) {
    && (forall i :: 0 <= i < |clients| ==> clients[i].key == Key(clients[i].endpoint))
    && (forall i, j :: 0 <= i < j < |clients| ==> clients[i].key != clients[j].key)
  }

  lemma SetKeepsMap(clients: seq<ClientEntry>, e: Endpoint)
    requires MapInv(clients)
    ensures MapInv(Set(clients, e))
    ensures forall c :: c in Set(clients, e) <==> (c in clients && c.key != Key(e)) || c == ClientEntry(Key(e), e)
  {
    var after := Set(clients, e);
    var k := Find(clients, Key(e));
    assert after[k] == ClientEntry(Key(e), e);
    forall c | c in clients && c.key != Key(e) ensures c in after {
      var i :| 0 <= i < |clients| && clients[i] == c;
      assert after[i] == c;
    }
  }

  lemma DeleteKeepsMap(clients: seq<ClientEntry>, key: string)
    requires MapInv(clients)
    ensures MapInv(Delete(clients, key))
    ensures forall c :: c in Delete(clients, key) <==> c in clients && c.key != key
  {
    var k := Find(clients, key);
    if k < |clients| {
      var after := clients[..k] + clients[k + 1..];
      forall i | 0 <= i < |after| ensures after[i] == clients[if i < k then i else i + 1] {}
      forall c | c in clients && c.key != key ensures c in after {
        var i :| 0 <= i < |clients| && clients[i] == c;
        assert after[if i < k then i else i - 1] == c;
      }
    }
  }

  function KeysOf(clients: seq<ClientEntry>): (keys: seq<string>)
    ensures |keys| == |clients| && forall i :: 0 <= i < |clients| ==> keys[i] == clients[i].key
  {
    seq(|clients|, i requires 0 <= i < |clients| => clients[i].key)
  }

  /** The map keeps the order in which its keys came: a known key keeps its place, a new one goes last, and the others
      close up behind a deleted one. */
  lemma KeysKeepTheirOrder(clients: seq<ClientEntry>, e: Endpoint)
    requires MapInv(clients)
    ensures KeysOf(Set(clients, e)) == KeysOf(clients) + if Key(e) in KeysOf(clients) then [] else [Key(e)]
    ensures Key(e) in KeysOf(clients) ==>
              exists i :: 0 <= i < |clients| && clients[i].key == Key(e)
                          && KeysOf(Delete(clients, Key(e))) == KeysOf(clients)[..i] + KeysOf(clients)[i + 1..]
    ensures Key(e) !in KeysOf(clients) ==> Delete(clients, Key(e)) == clients
  {
    var k := Find(clients, Key(e));
    if k < |clients| {
      assert KeysOf(clients)[k] == Key(e);
      assert KeysOf(Delete(clients, Key(e))) == KeysOf(clients)[..k] + KeysOf(clients)[k + 1..];
    }
  }

  // ---------------------------------------------------------------- refinement of the attached set

  datatype Presence = Attach(e: Endpoint) | Detach(e: Endpoint) | SocketClose

  function Apply(clients: seq<ClientEntry>, p: Presence): seq<ClientEntry> {
    match p
    case Attach(e) => Set(clients, e)
    case Detach(e) => Delete(clients, Key(e))
    case SocketClose => []
  }

  function Trace(ps: seq<Presence>): seq<ClientEntry> {
    if ps == [] then [] else Apply(Trace(ps[..|ps| - 1]), ps[|ps| - 1])
  }

  /** What the map stands for: the endpoints attached and not since detached. */
  function Attached(ps: seq<Presence>): set<Endpoint> {
    if ps == [] then {}
    else
      var before := Attached(ps[..|ps| - 1]);
      match ps[|ps| - 1]
      case Attach(e) => before + {e}
      case Detach(e) => before - {e}
      case SocketClose => {}
  }

  ghost predicate Within(ps: seq<Presence>, universe: set<Endpoint>) {
    forall i :: 0 <= i < |ps| ==> ps[i].SocketClose? || ps[i].e in universe
  }

  ghost predicate KeysTellApart(universe: set<Endpoint>) {
    forall d, e :: d in universe && e in universe && Key(d) == Key(e) ==> d == e
  }

  ghost predicate Refines(ps: seq<Presence>) {
    forall e :: e in Attached(ps) <==> ClientEntry(Key(e), e) in Trace(ps)
  }

  lemma {:induction false} TraceKeepsMap(ps: seq<Presence>)
    ensures MapInv(Trace(ps))
  {
    if ps != [] {
      TraceKeepsMap(ps[..|ps| - 1]);
      match ps[|ps| - 1]
      case Attach(e) => SetKeepsMap(Trace(ps[..|ps| - 1]), e);
      case Detach(e) => DeleteKeepsMap(Trace(ps[..|ps| - 1]), Key(e));
      case SocketClose =>
    }
  }

  /** Whatever the keys: an endpoint in the map is attached. */
  lemma {:induction false} TracedAreAttached(ps: seq<Presence>)
    ensures forall c :: c in Trace(ps) ==> c.endpoint in Attached(ps)
  {
    if ps != [] {
      var before := ps[..|ps| - 1];
      TracedAreAttached(before);
      TraceKeepsMap(before);
      match ps[|ps| - 1]
      case Attach(e) => SetKeepsMap(Trace(before), e);
      case Detach(e) => DeleteKeepsMap(Trace(before), Key(e));
      case SocketClose =>
    }
  }

  lemma {:induction false} DistinctKeysRefine(ps: seq<Presence>, universe: set<Endpoint>)
    requires Within(ps, universe) && KeysTellApart(universe)
    ensures Refines(ps) && Attached(ps) <= universe
  {
    if ps != [] {
      var before := ps[..|ps| - 1];
      DistinctKeysRefine(before, universe);
      TraceKeepsMap(before);
      TracedAreAttached(before);
      match ps[|ps| - 1]
      case Attach(e) =>
        SetKeepsMap(Trace(before), e);
        assert e in universe;
      case Detach(e) =>
        DeleteKeepsMap(Trace(before), Key(e));
        assert e in universe;
      case SocketClose =>
    }
  }

  /** Attaching two endpoints with one key loses the first. */
  lemma SharedKeyLosesOne(d: Endpoint, e: Endpoint)
    requires d != e && Key(d) == Key(e)
    ensures !Refines([Attach(d), Attach(e)])
  {
    var ps := [Attach(d), Attach(e)];
    assert ps[..1] == [Attach(d)] && [Attach(d)][..0] == [];
    assert Trace([Attach(d)]) == [ClientEntry(Key(d), d)];
    assert Trace(ps) == [ClientEntry(Key(e), e)];
    assert Attached([Attach(d)]) == {d};
    assert d in Attached(ps);
    assert ClientEntry(Key(d), d) !in Trace(ps);
  }

  /** The exact condition: over a set of endpoints the string-keyed map stands for the attached set in
      every trace if and only if no two of them share a key. */
  lemma RefinesIffKeysTellApart(universe: set<Endpoint>)
    ensures (forall ps :: Within(ps, universe) ==> Refines(ps)) <==> KeysTellApart(universe)
  {
    if KeysTellApart(universe) {
      forall ps | Within(ps, universe) ensures Refines(ps) {
        DistinctKeysRefine(ps, universe);
      }
    } else {
      var d, e :| d in universe && e in universe && Key(d) == Key(e) && d != e;
      SharedKeyLosesOne(d, e);
      assert Within([Attach(d), Attach(e)], universe);
    }
  }

  function FirstSpace(s: string): nat {
    if s == "" || s[0] == ' ' then 0 else 1 + FirstSpace(s[1..])
  }

  lemma {:induction false} FirstSpaceEndsPrefix(a: string, b: string)
    requires ' ' !in a
    ensures FirstSpace(a + " " + b) == |a|
  {
    var s := a + " " + b;
    if a == "" {
      assert s[0] == ' ';
    } else {
      assert s[0] == a[0] && s[1..] == a[1..] + " " + b;
      FirstSpaceEndsPrefix(a[1..], b);
    }
  }

  /** Keys tell endpoints apart when no device id contains a space. */
  lemma SpacelessKeysTellApart(universe: set<Endpoint>)
    requires forall e :: e in universe ==> ' ' !in e.deviceId
    ensures KeysTellApart(universe)
  {
    forall d, e | d in universe && e in universe && Key(d) == Key(e) ensures d == e {
      FirstSpaceEndsPrefix(d.deviceId, d.attachId);
      FirstSpaceEndsPrefix(e.deviceId, e.attachId);
      var n := |d.deviceId|;
      assert d.deviceId == Key(d)[..n] && e.deviceId == Key(e)[..n];
      assert d.attachId == Key(d)[n + 1..] && e.attachId == Key(e)[n + 1..];
    }
  }

  /** A device id with a space can collide: the second of these two attaches takes the first one's place. */
  lemma SpacedKeysCollide()
    ensures
      var d, e := Endpoint("a b", "c"), Endpoint("a", "b c");
      !KeysTellApart({d, e}) && !Refines([Attach(d), Attach(e)])
  {
    var d, e := Endpoint("a b", "c"), Endpoint("a", "b c");
    assert Key(d) == "a b c" == Key(e);
    assert d.attachId != e.attachId;
    SharedKeyLosesOne(d, e);
  }
}
