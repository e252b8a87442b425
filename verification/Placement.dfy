/** The host and client part of pkg/mesh/config.go: which peer carries which client. */
module Placement {
  import opened NatMaps
  import opened Hashing

  type Addr = nat

  datatype Node = Node(publicKey: Key, host: Addr)

  datatype PeerConfig = PeerConfig(publicKey: Key, allowedIPs: seq<Addr>)

  /** The nodes of one snapshot: public keys tell them apart. */
  predicate Distinct(nodes: seq<Node>) {
    forall i, j :: 0 <= i < j < |nodes| ==> nodes[i].publicKey != nodes[j].publicKey
  }

  function Hosts(nodes: seq<Node>): seq<Addr> {
    if nodes == [] then [] else Hosts(nodes[..|nodes| - 1]) + [nodes[|nodes| - 1].host]
  }

  /** The peer a client belongs to. */
  function Owner(peers: seq<Node>, client: Node, hash: Node -> int): Node
    requires peers != []
  {
    peers[Choose(peers, hash, hash(client))]
  }

  function ClientsOf(peers: seq<Node>, clients: seq<Node>, hash: Node -> int, key: Key): seq<Node>
    requires peers != []
  {
    if clients == [] then [] else
      var rest := ClientsOf(peers, clients[..|clients| - 1], hash, key);
      var c := clients[|clients| - 1];
      if Owner(peers, c, hash).publicKey == key then rest + [c] else rest
  }

  function Direct(clients: seq<Node>): seq<PeerConfig> {
    if clients == [] then [] else
      Direct(clients[..|clients| - 1]) + [PeerConfig(clients[|clients| - 1].publicKey, [clients[|clients| - 1].host])]
  }

  function Via(peers: seq<Node>, clients: seq<Node>, hash: Node -> int, self: Key, n: nat): seq<PeerConfig>
    requires peers != [] && n <= |peers|
  {
    if n == 0 then [] else
      var p := peers[n - 1];
      var rest := Via(peers, clients, hash, self, n - 1);
      if p.publicKey == self then rest
      else rest + [PeerConfig(p.publicKey, [p.host] + Hosts(ClientsOf(peers, clients, hash, p.publicKey)))]
  }

  method GetCorrespondingPeer(peers: seq<Node>, client: Node, hash: Node -> int) returns (peer: Node)
    requires peers != []
    ensures peer == Owner(peers, client, hash) && peer in peers
    ensures (exists p :: p in peers && hash(p) >= hash(client)) ==>
      hash(peer) >= hash(client) && forall p :: p in peers && hash(p) >= hash(client) ==> hash(peer) <= hash(p)
    ensures (forall p :: p in peers ==> hash(p) < hash(client)) ==> forall p :: p in peers ==> hash(peer) <= hash(p)
  {
    peer := ConsistentHash(peers, hash(client), hash);
  }

  method ConvertMeshNode(node: Node, peerToClients: map<Key, seq<Addr>>) returns (cfg: PeerConfig)
    ensures cfg == PeerConfig(node.publicKey,
      if node.publicKey in peerToClients then [node.host] + peerToClients[node.publicKey] else [node.host])
  {
    var allowedIPs := [node.host];
    if node.publicKey in peerToClients {
      allowedIPs := allowedIPs + peerToClients[node.publicKey];
    }
    cfg := PeerConfig(node.publicKey, allowedIPs);
  }

  lemma ClientsOfSnoc(peers: seq<Node>, clients: seq<Node>, c: Node, hash: Node -> int, key: Key)
    requires peers != []
    ensures ClientsOf(peers, clients + [c], hash, key)
         == if Owner(peers, c, hash).publicKey == key then ClientsOf(peers, clients, hash, key) + [c] else ClientsOf(peers, clients, hash, key)
  {
    assert (clients + [c])[..|clients|] == clients;
  }

  /** The lists of client hosts by peer. */
  ghost predicate Grouped(peers: seq<Node>, clients: seq<Node>, hash: Node -> int, peerToClients: map<Key, seq<Addr>>)
    requires peers != []
  {
    forall k :: (if k in peerToClients then peerToClients[k] else []) == Hosts(ClientsOf(peers, clients, hash, k))
  }

  ghost predicate OnlyPeers(peers: seq<Node>, peerToClients: map<Key, seq<Addr>>) {
    forall k :: k in peerToClients ==> exists p :: p in peers && p.publicKey == k
  }

  /** One client joins the list of its peer. */
  method GroupClient(peers: seq<Node>, ghost clients: seq<Node>, n: Node, hash: Node -> int, groups: map<Key, seq<Addr>>)
    returns (peer: Node, peerToClients: map<Key, seq<Addr>>)
    requires peers != [] && Grouped(peers, clients, hash, groups) && OnlyPeers(peers, groups)
    ensures peer == Owner(peers, n, hash)
    ensures Grouped(peers, clients + [n], hash, peerToClients) && OnlyPeers(peers, peerToClients)
  {
    hide Choose, ClientsOf, Hosts;
    peer := GetCorrespondingPeer(peers, n, hash);
    assert peer in peers;
    var sofar := if peer.publicKey in groups then groups[peer.publicKey] else [];
    peerToClients := groups[peer.publicKey := sofar + [n.host]];
    forall k ensures (if k in peerToClients then peerToClients[k] else []) == Hosts(ClientsOf(peers, clients + [n], hash, k)) {
      ClientsOfSnoc(peers, clients, n, hash, k);
      HostsSnoc(ClientsOf(peers, clients, hash, k), n);
    }
  }

  /** The client loop: the clients that belong to self, configured directly, and every peer's client hosts. */
  method ConfigureClients(self: Node, peers: seq<Node>, clients: seq<Node>, hash: Node -> int)
    returns (cfgs: seq<PeerConfig>, peerToClients: map<Key, seq<Addr>>)
    requires peers != [] && Distinct(peers + clients)
    ensures cfgs == Direct(ClientsOf(peers, clients, hash, self.publicKey))
    ensures Grouped(peers, clients, hash, peerToClients)
  {
    hide Choose, Hosts, Owner, Grouped, ClientsOf, Direct, OnlyPeers;
    peerToClients := map[];
    cfgs := [];
    assert clients[..0] == [];
    NothingYet(peers, hash, self.publicKey);
    for i := 0 to |clients|
      invariant cfgs == Direct(ClientsOf(peers, clients[..i], hash, self.publicKey))
      invariant Grouped(peers, clients[..i], hash, peerToClients) && OnlyPeers(peers, peerToClients)
    {
      var n := clients[i];
      assert clients[..i + 1] == clients[..i] + [n];
      var peer;
      peer, peerToClients := GroupClient(peers, clients[..i], n, hash, peerToClients);
      ClientIsNoPeer(peers, clients, i, peerToClients);
      var cfg := ConvertMeshNode(n, peerToClients);
      ClientsOfSnoc(peers, clients[..i], n, hash, self.publicKey);
      DirectSnoc(ClientsOf(peers, clients[..i], hash, self.publicKey), n);
      if self.publicKey == peer.publicKey {
        cfgs := cfgs + [cfg];
      }
    }
    assert clients[..|clients|] == clients;
  }

  /** A peer's configuration: its own clients directly, and every other peer with that peer's clients. */
  method GetPeerConfig(self: Node, peers: seq<Node>, clients: seq<Node>, hash: Node -> int) returns (cfgs: seq<PeerConfig>)
    requires Distinct(peers + clients)
    ensures peers == [] ==> cfgs == []
    ensures peers != [] ==>
      cfgs == Direct(ClientsOf(peers, clients, hash, self.publicKey)) + Via(peers, clients, hash, self.publicKey, |peers|)
    ensures forall p :: p in peers && p.publicKey != self.publicKey ==>
      exists i: nat, cs :: OnlyEntry(cfgs, i, p.publicKey) && Selects(peers, clients, hash, p, cs) && Lists(cfgs[i].allowedIPs, p, cs)
    ensures forall c :: c in clients && peers != [] ==>
      if Owner(peers, c, hash).publicKey == self.publicKey
      then exists i: nat :: OnlyEntry(cfgs, i, c.publicKey) && Lists(cfgs[i].allowedIPs, c, [])
      else forall i: nat :: !OnlyEntry(cfgs, i, c.publicKey)
    ensures forall cfg :: cfg in cfgs ==> exists n :: n in peers + clients && n.publicKey == cfg.publicKey
  {
    hide Choose, Hosts, Owner, Grouped, ClientsOf, Direct, Distinct;
    if peers == [] {
      return [];
    }
    var direct, peerToClients := ConfigureClients(self, peers, clients, hash);
    cfgs := direct;
    for i := 0 to |peers|
      invariant cfgs == direct + Via(peers, clients, hash, self.publicKey, i)
    {
      if peers[i].publicKey != self.publicKey {
        var cfg := ConvertMeshNode(peers[i], peerToClients);
        GroupAt(peers, clients, hash, peerToClients, peers[i].publicKey);
        assert [peers[i].host] + [] == [peers[i].host];
        cfgs := cfgs + [cfg];
      }
    }
    ConfigEntries(self, peers, clients, hash, cfgs);
  }

  // ---- What a configuration says ----

  /** The one entry under this key. */
  ghost predicate OnlyEntry(cfgs: seq<PeerConfig>, i: nat, key: Key) {
    i < |cfgs| && cfgs[i].publicKey == key && forall j: nat :: j < |cfgs| && j != i ==> cfgs[j].publicKey != key
  }

  /** Exactly the clients that select p, each once. */
  ghost predicate Selects(peers: seq<Node>, clients: seq<Node>, hash: Node -> int, p: Node, cs: seq<Node>) {
    && peers != [] && (forall c :: c in cs <==> c in clients && Owner(peers, c, hash) == p)
    && forall i, j :: 0 <= i < j < |cs| ==> cs[i] != cs[j]
  }

  /** The host of n, and then the hosts of these nodes. */
  predicate Lists(ips: seq<Addr>, n: Node, cs: seq<Node>) {
    |ips| == |cs| + 1 && ips[0] == n.host && forall j: nat :: j < |cs| ==> ips[j + 1] == cs[j].host
  }

  lemma {:induction false} HostAt(nodes: seq<Node>)
    ensures |Hosts(nodes)| == |nodes| && forall j: nat :: j < |nodes| ==> Hosts(nodes)[j] == nodes[j].host
  {
    if nodes != [] {
      HostAt(nodes[..|nodes| - 1]);
    }
  }

  lemma {:induction false} ClientsOnce(peers: seq<Node>, clients: seq<Node>, hash: Node -> int, key: Key)
    requires peers != [] && forall i, j :: 0 <= i < j < |clients| ==> clients[i] != clients[j]
    ensures
      var cs := ClientsOf(peers, clients, hash, key);
      forall i, j :: 0 <= i < j < |cs| ==> cs[i] != cs[j]
  {
    hide Owner;
    if clients != [] {
      var init, last := clients[..|clients| - 1], clients[|clients| - 1];
      ClientsOnce(peers, init, hash, key);
      ClientsOfHolds(peers, init, hash, key, last);
      var cs := ClientsOf(peers, init, hash, key);
      forall i | 0 <= i < |cs| ensures cs[i] != last {
        assert cs[i] in cs;
        assert last in cs ==> last in init;
      }
    }
  }

  /** The entries of other peers, by the first n of them. */
  lemma {:induction false} ViaEntry(peers: seq<Node>, clients: seq<Node>, hash: Node -> int, self: Key, n: nat, t: nat) returns (i: nat)
    requires peers != [] && t < n <= |peers| && Distinct(peers) && peers[t].publicKey != self
    ensures
      var via, p := Via(peers, clients, hash, self, n), peers[t];
      OnlyEntry(via, i, p.publicKey) && via[i].allowedIPs == [p.host] + Hosts(ClientsOf(peers, clients, hash, p.publicKey))
  {
    hide ClientsOf, Hosts;
    var rest := Via(peers, clients, hash, self, n - 1);
    if t < n - 1 {
      i := ViaEntry(peers, clients, hash, self, n - 1, t);
    } else {
      i := |rest|;
      forall j: nat | j < |rest| ensures rest[j].publicKey != peers[t].publicKey {
        var u := ViaKey(peers, clients, hash, self, n - 1, j);
      }
    }
  }

  lemma {:induction false} ViaKey(peers: seq<Node>, clients: seq<Node>, hash: Node -> int, self: Key, n: nat, j: nat) returns (u: nat)
    requires peers != [] && n <= |peers| && j < |Via(peers, clients, hash, self, n)|
    ensures u < n && peers[u].publicKey == Via(peers, clients, hash, self, n)[j].publicKey && peers[u].publicKey != self
  {
    hide ClientsOf, Hosts;
    if j < |Via(peers, clients, hash, self, n - 1)| {
      u := ViaKey(peers, clients, hash, self, n - 1, j);
    } else {
      u := n - 1;
    }
  }

  lemma {:induction false} DirectAt(clients: seq<Node>)
    ensures |Direct(clients)| == |clients|
    ensures forall j: nat :: j < |clients| ==> Direct(clients)[j] == PeerConfig(clients[j].publicKey, [clients[j].host])
  {
    if clients != [] {
      DirectAt(clients[..|clients| - 1]);
    }
  }

  /** Nodes of one snapshot: clients are told apart, and peers are, by themselves. */
  lemma Parts(peers: seq<Node>, clients: seq<Node>)
    requires Distinct(peers + clients)
    ensures Distinct(peers) && forall i, j :: 0 <= i < j < |clients| ==> clients[i] != clients[j]
  {
    forall i, j | 0 <= i < j < |peers| ensures peers[i].publicKey != peers[j].publicKey {
      assert (peers + clients)[i] == peers[i] && (peers + clients)[j] == peers[j];
    }
    forall i, j | 0 <= i < j < |clients| ensures clients[i] != clients[j] {
      assert (peers + clients)[|peers| + i] == clients[i] && (peers + clients)[|peers| + j] == clients[j];
    }
  }

  lemma PeerEntry(self: Key, peers: seq<Node>, clients: seq<Node>, hash: Node -> int, cfgs: seq<PeerConfig>, p: Node)
    requires peers != [] && Distinct(peers + clients) && p in peers && p.publicKey != self
    requires cfgs == Direct(ClientsOf(peers, clients, hash, self)) + Via(peers, clients, hash, self, |peers|)
    ensures exists i: nat, cs :: OnlyEntry(cfgs, i, p.publicKey) && Selects(peers, clients, hash, p, cs) && Lists(cfgs[i].allowedIPs, p, cs)
  {
    hide Owner, ClientsOf, Hosts, Via, Direct;
    Parts(peers, clients);
    var t: nat :| t < |peers| && peers[t] == p;
    var i := ViaEntry(peers, clients, hash, self, |peers|, t);
    var own, cs := ClientsOf(peers, clients, hash, self), ClientsOf(peers, clients, hash, p.publicKey);
    DirectAt(own);
    HostAt(cs);
    ClientsOnce(peers, clients, hash, p.publicKey);
    OwnersByKey(peers, clients, hash, p, cs);
    var direct := Direct(own);
    forall j: nat | j < |direct| ensures direct[j].publicKey != p.publicKey {
      assert own[j] in own;
      ClientsOfHolds(peers, clients, hash, self, own[j]);
      var u: nat :| u < |clients| && clients[u] == own[j];
      ClientsAreNotPeers(peers, clients, u);
    }
    var at := |direct| + i;
    assert OnlyEntry(cfgs, at, p.publicKey);
    assert Lists(cfgs[at].allowedIPs, p, cs);
    assert Selects(peers, clients, hash, p, cs);
  }

  lemma OwnersByKey(peers: seq<Node>, clients: seq<Node>, hash: Node -> int, p: Node, cs: seq<Node>)
    requires peers != [] && Distinct(peers + clients) && p in peers && cs == ClientsOf(peers, clients, hash, p.publicKey)
    ensures forall c :: c in cs <==> c in clients && Owner(peers, c, hash) == p
  {
    forall c ensures c in cs <==> c in clients && Owner(peers, c, hash) == p {
      ClientsOfHolds(peers, clients, hash, p.publicKey, c);
      var o := Owner(peers, c, hash);
      assert o in peers;
      if o.publicKey == p.publicKey {
        SameKeySamePeer(peers, clients, o, p);
      }
    }
  }

  lemma ClientEntry(self: Key, peers: seq<Node>, clients: seq<Node>, hash: Node -> int, cfgs: seq<PeerConfig>, c: Node)
    requires peers != [] && Distinct(peers + clients) && c in clients
    requires cfgs == Direct(ClientsOf(peers, clients, hash, self)) + Via(peers, clients, hash, self, |peers|)
    ensures
      if Owner(peers, c, hash).publicKey == self
      then exists i: nat :: OnlyEntry(cfgs, i, c.publicKey) && Lists(cfgs[i].allowedIPs, c, [])
      else forall i: nat :: !OnlyEntry(cfgs, i, c.publicKey)
  {
    hide Owner, ClientsOf, Hosts, Via, Direct;
    Parts(peers, clients);
    var own := ClientsOf(peers, clients, hash, self);
    var direct, via := Direct(own), Via(peers, clients, hash, self, |peers|);
    DirectAt(own);
    ClientsOnce(peers, clients, hash, self);
    ClientsOfHolds(peers, clients, hash, self, c);
    var u: nat :| u < |clients| && clients[u] == c;
    ClientsAreNotPeers(peers, clients, u);
    forall j: nat | j < |via| ensures via[j].publicKey != c.publicKey {
      var q := ViaKey(peers, clients, hash, self, |peers|, j);
      assert peers[q] in peers;
    }
    forall j: nat | j < |direct| && direct[j].publicKey == c.publicKey ensures own[j] == c {
      assert own[j] in own;
      ClientsOfHolds(peers, clients, hash, self, own[j]);
      SameKeySameNode(peers, clients, own[j], c);
    }
    if c in own {
      var i: nat :| i < |own| && own[i] == c;
      assert OnlyEntry(cfgs, i, c.publicKey) && Lists(cfgs[i].allowedIPs, c, []);
    }
  }

  lemma ConfigEntries(self: Node, peers: seq<Node>, clients: seq<Node>, hash: Node -> int, cfgs: seq<PeerConfig>)
    requires peers != [] && Distinct(peers + clients)
    requires cfgs == Direct(ClientsOf(peers, clients, hash, self.publicKey)) + Via(peers, clients, hash, self.publicKey, |peers|)
    ensures forall p :: p in peers && p.publicKey != self.publicKey ==>
      exists i: nat, cs :: OnlyEntry(cfgs, i, p.publicKey) && Selects(peers, clients, hash, p, cs) && Lists(cfgs[i].allowedIPs, p, cs)
    ensures forall c :: c in clients ==>
      if Owner(peers, c, hash).publicKey == self.publicKey
      then exists i: nat :: OnlyEntry(cfgs, i, c.publicKey) && Lists(cfgs[i].allowedIPs, c, [])
      else forall i: nat :: !OnlyEntry(cfgs, i, c.publicKey)
    ensures forall cfg :: cfg in cfgs ==> exists n :: n in peers + clients && n.publicKey == cfg.publicKey
  {
    hide Owner, ClientsOf, Via, Direct, Selects, Lists, Distinct;
    forall p | p in peers && p.publicKey != self.publicKey
      ensures exists i: nat, cs :: OnlyEntry(cfgs, i, p.publicKey) && Selects(peers, clients, hash, p, cs) && Lists(cfgs[i].allowedIPs, p, cs)
    {
      PeerEntry(self.publicKey, peers, clients, hash, cfgs, p);
    }
    forall c | c in clients
      ensures
        if Owner(peers, c, hash).publicKey == self.publicKey
        then exists i: nat :: OnlyEntry(cfgs, i, c.publicKey) && Lists(cfgs[i].allowedIPs, c, [])
        else forall i: nat :: !OnlyEntry(cfgs, i, c.publicKey)
    {
      ClientEntry(self.publicKey, peers, clients, hash, cfgs, c);
    }
    forall cfg | cfg in cfgs ensures exists n :: n in peers + clients && n.publicKey == cfg.publicKey {
      EntryKnown(self.publicKey, peers, clients, hash, cfg);
    }
  }

  lemma EntryKnown(self: Key, peers: seq<Node>, clients: seq<Node>, hash: Node -> int, cfg: PeerConfig)
    requires peers != []
    requires cfg in Direct(ClientsOf(peers, clients, hash, self)) + Via(peers, clients, hash, self, |peers|)
    ensures exists n :: n in peers + clients && n.publicKey == cfg.publicKey
  {
    hide ClientsOf, Via, Direct;
    var own := ClientsOf(peers, clients, hash, self);
    DirectAt(own);
    if cfg in Direct(own) {
      var j: nat :| j < |own| && Direct(own)[j] == cfg;
      ClientsOfHolds(peers, clients, hash, self, own[j]);
      assert own[j] in own && own[j] in peers + clients;
    } else {
      var via := Via(peers, clients, hash, self, |peers|);
      var j: nat :| j < |via| && via[j] == cfg;
      var u := ViaKey(peers, clients, hash, self, |peers|, j);
      assert peers[u] in peers + clients;
    }
  }

  lemma NothingYet(peers: seq<Node>, hash: Node -> int, key: Key)
    requires peers != []
    ensures Direct(ClientsOf(peers, [], hash, key)) == []
    ensures Grouped(peers, [], hash, map[]) && OnlyPeers(peers, map[])
  {}

  lemma GroupAt(peers: seq<Node>, clients: seq<Node>, hash: Node -> int, peerToClients: map<Key, seq<Addr>>, k: Key)
    requires peers != [] && Grouped(peers, clients, hash, peerToClients)
    ensures (if k in peerToClients then peerToClients[k] else []) == Hosts(ClientsOf(peers, clients, hash, k))
  {}

  lemma ClientsAreNotPeers(peers: seq<Node>, clients: seq<Node>, i: nat)
    requires Distinct(peers + clients) && i < |clients|
    ensures forall p :: p in peers ==> p.publicKey != clients[i].publicKey
  {
    forall p | p in peers ensures p.publicKey != clients[i].publicKey {
      var j :| 0 <= j < |peers| && peers[j] == p;
      assert (peers + clients)[j] == p && (peers + clients)[|peers| + i] == clients[i];
    }
  }

  lemma ClientIsNoPeer(peers: seq<Node>, clients: seq<Node>, i: nat, peerToClients: map<Key, seq<Addr>>)
    requires Distinct(peers + clients) && i < |clients| && OnlyPeers(peers, peerToClients)
    ensures clients[i].publicKey !in peerToClients
  {
    ClientsAreNotPeers(peers, clients, i);
  }

  lemma HostsSnoc(nodes: seq<Node>, n: Node)
    ensures Hosts(nodes + [n]) == Hosts(nodes) + [n.host]
  {
    assert (nodes + [n])[..|nodes|] == nodes;
  }

  lemma DirectSnoc(nodes: seq<Node>, n: Node)
    ensures Direct(nodes + [n]) == Direct(nodes) + [PeerConfig(n.publicKey, [n.host])]
  {
    assert (nodes + [n])[..|nodes|] == nodes;
  }

  /** A client's configuration has one peer: the one it belongs to. */
  method GetClientPeer(self: Node, peers: seq<Node>, hash: Node -> int) returns (peer: Node, ok: bool)
    ensures ok <==> peers != []
    ensures ok ==> peer == Owner(peers, self, hash) && peer in peers
    ensures ok && (exists p :: p in peers && hash(p) >= hash(self)) ==>
      hash(peer) >= hash(self) && forall p :: p in peers && hash(p) >= hash(self) ==> hash(peer) <= hash(p)
    ensures ok && (forall p :: p in peers ==> hash(p) < hash(self)) ==> forall p :: p in peers ==> hash(peer) <= hash(p)
  {
    if peers == [] {
      return self, false;
    }
    peer := ConsistentHash(peers, hash(self), hash);
    ok := true;
  }

  // ---- Agreement ----

  ghost predicate SamePeers(peers: seq<Node>, other: seq<Node>) {
    forall p :: p in peers <==> p in other
  }

  lemma {:induction false} ClientsOfHolds(peers: seq<Node>, clients: seq<Node>, hash: Node -> int, key: Key, c: Node)
    requires peers != []
    ensures c in ClientsOf(peers, clients, hash, key) <==> c in clients && Owner(peers, c, hash).publicKey == key
  {
    if clients != [] {
      var init, last := clients[..|clients| - 1], clients[|clients| - 1];
      assert clients == init + [last];
      ClientsOfHolds(peers, init, hash, key, c);
    }
  }

  lemma {:induction false} DirectHolds(clients: seq<Node>, k: Key)
    ensures (exists cfg :: cfg in Direct(clients) && cfg.publicKey == k) <==> exists c :: c in clients && c.publicKey == k
  {
    if clients != [] {
      var init, last := clients[..|clients| - 1], clients[|clients| - 1];
      assert clients == init + [last];
      DirectHolds(init, k);
      var cfg := PeerConfig(last.publicKey, [last.host]);
      assert Direct(clients) == Direct(init) + [cfg];
      assert cfg in Direct(clients) && last in clients;
    }
  }

  lemma {:induction false} ViaHolds(peers: seq<Node>, clients: seq<Node>, hash: Node -> int, self: Key, n: nat, cfg: PeerConfig)
    requires peers != [] && n <= |peers| && cfg in Via(peers, clients, hash, self, n)
    ensures exists p :: p in peers && p.publicKey == cfg.publicKey
  {
    if cfg !in Via(peers, clients, hash, self, n - 1) {
      assert peers[n - 1] in peers;
    } else {
      ViaHolds(peers, clients, hash, self, n - 1, cfg);
    }
  }

  /** Two nodes that see the same peers in different orders agree: peer p configures client c directly
      exactly when c selects p. */
  lemma PlacementAgrees(peers: seq<Node>, clients: seq<Node>, clientView: seq<Node>, hash: Node -> int, p: Node, c: Node)
    requires peers != [] && clientView != [] && Distinct(peers + clients) && p in peers && c in clients
    requires SamePeers(peers, clientView) && DistinctBuckets(peers, hash)
    ensures
      var cfgs := Direct(ClientsOf(peers, clients, hash, p.publicKey)) + Via(peers, clients, hash, p.publicKey, |peers|);
      (exists cfg :: cfg in cfgs && cfg.publicKey == c.publicKey) <==> Owner(clientView, c, hash) == p
  {
    OrderIrrelevant(peers, clientView, hash, hash(c));
    var own := ClientsOf(peers, clients, hash, p.publicKey);
    var via := Via(peers, clients, hash, p.publicKey, |peers|);
    var i :| 0 <= i < |clients| && clients[i] == c;
    ClientsAreNotPeers(peers, clients, i);
    forall cfg | cfg in via ensures cfg.publicKey != c.publicKey {
      ViaHolds(peers, clients, hash, p.publicKey, |peers|, cfg);
    }
    DirectHolds(own, c.publicKey);
    ClientsOfHolds(peers, clients, hash, p.publicKey, c);
    forall d | d in own && d.publicKey == c.publicKey ensures d == c {
      ClientsOfHolds(peers, clients, hash, p.publicKey, d);
      SameKeySameNode(peers, clients, d, c);
    }
    var o := Owner(peers, c, hash);
    assert o in peers;
    if o.publicKey == p.publicKey {
      SameKeySamePeer(peers, clients, o, p);
    }
  }

  lemma SameKeySameNode(peers: seq<Node>, clients: seq<Node>, c: Node, d: Node)
    requires Distinct(peers + clients) && c in clients && d in clients && c.publicKey == d.publicKey
    ensures c == d
  {
    var i :| 0 <= i < |clients| && clients[i] == c;
    var j :| 0 <= j < |clients| && clients[j] == d;
    assert (peers + clients)[|peers| + i] == c && (peers + clients)[|peers| + j] == d;
  }

  lemma SameKeySamePeer(peers: seq<Node>, clients: seq<Node>, p: Node, q: Node)
    requires Distinct(peers + clients) && p in peers && q in peers && p.publicKey == q.publicKey
    ensures p == q
  {
    var i :| 0 <= i < |peers| && peers[i] == p;
    var j :| 0 <= j < |peers| && peers[j] == q;
    assert (peers + clients)[i] == p && (peers + clients)[j] == q;
  }

  // ---- Partition ----

  function AllowedIPs(cfgs: seq<PeerConfig>): seq<Addr> {
    if cfgs == [] then [] else AllowedIPs(cfgs[..|cfgs| - 1]) + cfgs[|cfgs| - 1].allowedIPs
  }

  lemma {:induction false} AllowedConcat(a: seq<PeerConfig>, b: seq<PeerConfig>)
    ensures AllowedIPs(a + b) == AllowedIPs(a) + AllowedIPs(b)
  {
    if b == [] {
      assert a + b == a;
    } else {
      var init, last := b[..|b| - 1], b[|b| - 1];
      assert (a + b)[..|a + b| - 1] == a + init && (a + b)[|a + b| - 1] == last;
      AllowedConcat(a, init);
    }
  }

  lemma {:induction false} DirectIPs(clients: seq<Node>)
    ensures AllowedIPs(Direct(clients)) == Hosts(clients)
  {
    if clients != [] {
      var init, last := clients[..|clients| - 1], clients[|clients| - 1];
      DirectIPs(init);
      var d := Direct(clients);
      assert d[..|d| - 1] == Direct(init);
    }
  }

  function Others(peers: seq<Node>, self: Key, n: nat): seq<Node>
    requires n <= |peers|
  {
    if n == 0 then [] else
      if peers[n - 1].publicKey == self then Others(peers, self, n - 1) else Others(peers, self, n - 1) + [peers[n - 1]]
  }

  /** All clients that belong to one of the first n peers. */
  ghost function Carried(peers: seq<Node>, clients: seq<Node>, hash: Node -> int, n: nat): multiset<Addr>
    requires peers != [] && n <= |peers|
  {
    if n == 0 then multiset{} else
      Carried(peers, clients, hash, n - 1) + multiset(Hosts(ClientsOf(peers, clients, hash, peers[n - 1].publicKey)))
  }

  lemma OwnerIs(peers: seq<Node>, c: Node, hash: Node -> int, i: nat)
    requires peers != [] && i < |peers| && Distinct(peers)
    ensures Owner(peers, c, hash).publicKey == peers[i].publicKey <==> Choose(peers, hash, hash(c)) == i
  {}

  /** One more client lands at exactly one peer. */
  lemma {:induction false} CarriedSnoc(peers: seq<Node>, clients: seq<Node>, c: Node, hash: Node -> int, n: nat)
    requires peers != [] && n <= |peers| && Distinct(peers)
    ensures Carried(peers, clients + [c], hash, n) == Carried(peers, clients, hash, n)
      + if Choose(peers, hash, hash(c)) < n then multiset{c.host} else multiset{}
  {
    hide Choose, ClientsOf, Hosts, Owner, Distinct;
    if n > 0 {
      var key := peers[n - 1].publicKey;
      CarriedSnoc(peers, clients, c, hash, n - 1);
      ClientsOfSnoc(peers, clients, c, hash, key);
      HostsSnoc(ClientsOf(peers, clients, hash, key), c);
      OwnerIs(peers, c, hash, n - 1);
    }
  }

  lemma {:induction false} CarriedNone(peers: seq<Node>, hash: Node -> int, n: nat)
    requires peers != [] && n <= |peers|
    ensures Carried(peers, [], hash, n) == multiset{}
  {
    if n > 0 {
      CarriedNone(peers, hash, n - 1);
    }
  }

  lemma {:induction false} AllCarried(peers: seq<Node>, clients: seq<Node>, hash: Node -> int)
    requires peers != [] && Distinct(peers)
    ensures Carried(peers, clients, hash, |peers|) == multiset(Hosts(clients))
  {
    if clients == [] {
      CarriedNone(peers, hash, |peers|);
    } else {
      var init, last := clients[..|clients| - 1], clients[|clients| - 1];
      assert clients == init + [last];
      AllCarried(peers, init, hash);
      CarriedSnoc(peers, init, last, hash, |peers|);
      HostsSnoc(init, last);
    }
  }

  /** What the first n peers bring: their own hosts, and the clients of each but self. */
  ghost predicate Brought(peers: seq<Node>, clients: seq<Node>, hash: Node -> int, s: nat, n: nat)
    requires peers != [] && n <= |peers| && s < |peers|
  {
    var self := peers[s].publicKey;
    multiset(AllowedIPs(Via(peers, clients, hash, self, n)))
      + (if s < n then multiset(Hosts(ClientsOf(peers, clients, hash, self))) else multiset{})
    == multiset(Hosts(Others(peers, self, n))) + Carried(peers, clients, hash, n)
  }

  lemma Unfold(peers: seq<Node>, clients: seq<Node>, hash: Node -> int, self: Key, n: nat)
    requires peers != [] && n < |peers|
    ensures
      var p := peers[n];
      var carried := Hosts(ClientsOf(peers, clients, hash, p.publicKey));
      && Carried(peers, clients, hash, n + 1) == Carried(peers, clients, hash, n) + multiset(carried)
      && multiset(AllowedIPs(Via(peers, clients, hash, self, n + 1)))
        == multiset(AllowedIPs(Via(peers, clients, hash, self, n)))
          + (if p.publicKey == self then multiset{} else multiset{p.host} + multiset(carried))
      && multiset(Hosts(Others(peers, self, n + 1)))
        == multiset(Hosts(Others(peers, self, n))) + (if p.publicKey == self then multiset{} else multiset{p.host})
  {
    hide Choose, ClientsOf, Hosts, AllowedIPs;
    var p := peers[n];
    if p.publicKey != self {
      var carried := Hosts(ClientsOf(peers, clients, hash, p.publicKey));
      AllowedSnoc(Via(peers, clients, hash, self, n), PeerConfig(p.publicKey, [p.host] + carried));
      HostsSnoc(Others(peers, self, n), p);
    }
  }

  lemma BroughtStep(peers: seq<Node>, clients: seq<Node>, hash: Node -> int, s: nat, n: nat)
    requires peers != [] && n < |peers| && Distinct(peers) && s < |peers| && Brought(peers, clients, hash, s, n)
    ensures Brought(peers, clients, hash, s, n + 1)
  {
    hide Choose, ClientsOf, Hosts, AllowedIPs, Via, Others, Carried;
    Unfold(peers, clients, hash, peers[s].publicKey, n);
    assert n == s <==> peers[n].publicKey == peers[s].publicKey;
    var self, p := peers[s].publicKey, peers[n];
    var via, others := multiset(AllowedIPs(Via(peers, clients, hash, self, n))), multiset(Hosts(Others(peers, self, n)));
    var own := multiset(Hosts(ClientsOf(peers, clients, hash, self)));
    var more := multiset(Hosts(ClientsOf(peers, clients, hash, p.publicKey)));
    var carried := Carried(peers, clients, hash, n);
    if n == s {
      assert via == others + carried by { assert via + multiset{} == via; }
      assert via + multiset{} + own == others + multiset{} + (carried + own);
    } else {
      Balance(via, others, carried, more, if s < n then own else multiset{}, p.host);
    }
  }

  lemma Balance(via: multiset<Addr>, others: multiset<Addr>, carried: multiset<Addr>, more: multiset<Addr>, own: multiset<Addr>, h: Addr)
    requires via + own == others + carried
    ensures (via + (multiset{h} + more)) + own == (others + multiset{h}) + (carried + more)
  {
    forall a ensures (via + (multiset{h} + more) + own)[a] == (others + multiset{h} + (carried + more))[a] {
      assert (via + own)[a] == (others + carried)[a];
    }
  }

  lemma {:induction false} ViaIPs(peers: seq<Node>, clients: seq<Node>, hash: Node -> int, s: nat, n: nat)
    requires peers != [] && n <= |peers| && Distinct(peers) && s < |peers|
    ensures Brought(peers, clients, hash, s, n)
  {
    hide Choose, Brought, Distinct, Via, Others, Carried, ClientsOf, Hosts, AllowedIPs;
    if n > 0 {
      ViaIPs(peers, clients, hash, s, n - 1);
      BroughtStep(peers, clients, hash, s, n - 1);
    } else {
      BroughtNone(peers, clients, hash, s);
    }
  }

  lemma BroughtNone(peers: seq<Node>, clients: seq<Node>, hash: Node -> int, s: nat)
    requires peers != [] && s < |peers|
    ensures Brought(peers, clients, hash, s, 0)
  {
    hide ClientsOf;
  }

  lemma AllowedSnoc(cfgs: seq<PeerConfig>, cfg: PeerConfig)
    ensures AllowedIPs(cfgs + [cfg]) == AllowedIPs(cfgs) + cfg.allowedIPs
  {
    assert (cfgs + [cfg])[..|cfgs|] == cfgs;
  }

  /** In a peer's configuration the host of every other node appears exactly once, in exactly one list: the
      lists together are a permutation of the other peers' hosts and all clients' hosts. */
  lemma HostsPartition(peers: seq<Node>, clients: seq<Node>, hash: Node -> int, s: nat)
    requires peers != [] && Distinct(peers + clients) && s < |peers|
    ensures
      var self := peers[s].publicKey;
      var cfgs := Direct(ClientsOf(peers, clients, hash, self)) + Via(peers, clients, hash, self, |peers|);
      multiset(AllowedIPs(cfgs)) == multiset(Hosts(Others(peers, self, |peers|)) + Hosts(clients))
  {
    var self := peers[s].publicKey;
    var own := ClientsOf(peers, clients, hash, self);
    var via := Via(peers, clients, hash, self, |peers|);
    assert Distinct(peers) by {
      forall i, j | 0 <= i < j < |peers| ensures peers[i].publicKey != peers[j].publicKey {
        assert (peers + clients)[i] == peers[i] && (peers + clients)[j] == peers[j];
      }
    }
    AllowedConcat(Direct(own), via);
    DirectIPs(own);
    ViaIPs(peers, clients, hash, s, |peers|);
    AllCarried(peers, clients, hash);
  }
}
