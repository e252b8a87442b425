/** pkg/crdt/datastore.go */
module Datastores {
  import opened NatMaps
  import opened Replica
  import opened Causality
  import opened TwoPhaseMaps
  import opened RouteTables

  // ---- The operations as functions on the store ----

  ghost function PutTable(s: Store<MeshNode>, id: Key, t: Table, now: nat): Store<MeshNode>
    requires id in s.add
  {
    Put(s, id, s.add[id].contents.(routes := t), now)
  }

  /** Adding routes writes the entry only when some route changes its table. */
  ghost function Advertise(s: Store<MeshNode>, id: Key, rs: seq<Route>, now: nat): Store<MeshNode> {
    if Contains(s, id) && AddAll(TableAt(s, id), rs) != TableAt(s, id)
    then PutTable(s, id, AddAll(TableAt(s, id), rs), now) else s
  }

  /** Removing any routes at all writes the entry. */
  ghost function Withdraw(s: Store<MeshNode>, id: Key, rs: seq<Route>, now: nat): Store<MeshNode> {
    if Contains(s, id) && rs != [] then PutTable(s, id, TableAt(s, id) - Dests(rs), now) else s
  }

  /** A store whose own replica wrote one more table: the table is there, and nothing else has changed. */
  ghost predicate Rewrote(s: Store<MeshNode>, s': Store<MeshNode>, id: Key, t: Table) {
    && id in s.add && Contains(s', id) && TableAt(s', id) == t && s'.add[id].contents.nodeType == s.add[id].contents.nodeType
    && s'.add.Keys == s.add.Keys && s'.rem == s.rem
    && (forall k :: k in s.add && k != id ==> s'.add[k] == s.add[k])
    && s'.clock.self == s.clock.self && Stamped(s') && WellKeyed(s')
  }

  lemma PutTableRewrites(s: Store<MeshNode>, t: Table, now: nat)
    requires Stamped(s) && WellKeyed(s) && Contains(s, s.clock.self) && Keyed(t)
    ensures Rewrote(s, PutTable(s, s.clock.self, t, now), s.clock.self, t)
  {
    var id := s.clock.self;
    var node := s.add[id].contents.(routes := t);
    PutStamp(s, id, node, now);
    PutDominates(s, id, node, now);
    PutKeeps(s, node, now);
    PutElse(s, id, node, now);
    hide Put, Stamped;
  }

  lemma RewroteItself(s: Store<MeshNode>)
    requires Stamped(s) && WellKeyed(s) && Contains(s, s.clock.self)
    ensures Rewrote(s, s, s.clock.self, TableAt(s, s.clock.self))
  {}

  lemma AdvertiseRewrites(s: Store<MeshNode>, rs: seq<Route>, now: nat)
    requires Stamped(s) && WellKeyed(s) && Contains(s, s.clock.self)
    ensures Rewrote(s, Advertise(s, s.clock.self, rs, now), s.clock.self, AddAll(TableAt(s, s.clock.self), rs))
  {
    var t := TableAt(s, s.clock.self);
    AddAllLeast(t, rs);
    PutTableRewrites(s, AddAll(t, rs), now);
    RewroteItself(s);
  }

  lemma WithdrawRewrites(s: Store<MeshNode>, rs: seq<Route>, now: nat)
    requires Stamped(s) && WellKeyed(s) && Contains(s, s.clock.self)
    ensures Rewrote(s, Withdraw(s, s.clock.self, rs, now), s.clock.self, TableAt(s, s.clock.self) - Dests(rs))
  {
    var t := TableAt(s, s.clock.self);
    PutTableRewrites(s, t - Dests(rs), now);
    RewroteItself(s);
    assert rs == [] ==> t - Dests(rs) == t;
  }

  /** Adding routes stamps the entry anew exactly when some route is for a new destination or shorter. */
  lemma AdvertiseWritesIff(s: Store<MeshNode>, rs: seq<Route>, now: nat)
    requires Stamped(s) && WellKeyed(s) && Contains(s, s.clock.self)
    ensures
      var id, s' := s.clock.self, Advertise(s, s.clock.self, rs, now);
      var t := s.add[id].contents.routes;
      if exists r :: r in rs && (r.dest !in t || Hops(r) < Hops(t[r.dest]))
      then s.add[id].vector < s'.add[id].vector else s' == s
  {
    var id := s.clock.self;
    var t := TableAt(s, id);
    AddAllLeast(t, rs);
    if exists r :: r in rs && (r.dest !in t || Hops(r) < Hops(t[r.dest])) {
      assert AddAll(t, rs) != t;
      PutDominates(s, id, s.add[id].contents.(routes := AddAll(t, rs)), now);
    } else {
      AddAllKeeps(t, rs);
    }
    hide Put;
  }

  /** Removing routes stamps the entry anew whenever any are given, even if the table has none of them. */
  lemma WithdrawWritesIff(s: Store<MeshNode>, rs: seq<Route>, now: nat)
    requires Stamped(s) && Contains(s, s.clock.self)
    ensures
      var id, s' := s.clock.self, Withdraw(s, s.clock.self, rs, now);
      if rs != [] then id in s'.add && s.add[id].vector < s'.add[id].vector else s' == s
  {
    if rs != [] {
      PutDominates(s, s.clock.self, s.add[s.clock.self].contents.(routes := TableAt(s, s.clock.self) - Dests(rs)), now);
    }
    hide Put;
  }

  lemma AdvertiseKeyed(s: Store<MeshNode>, id: Key, rs: seq<Route>, now: nat)
    requires WellKeyed(s)
    ensures WellKeyed(Advertise(s, id, rs, now))
  {
    if Contains(s, id) {
      AddAllLeast(TableAt(s, id), rs);
      PutStamp(s, id, s.add[id].contents.(routes := AddAll(TableAt(s, id), rs)), now);
      hide Put;
    }
  }

  class Datastore {
    const meshId: MeshId
    const advertiseRoutes: bool
    const advertiseDefaultRoute: bool
    const store: TwoPhaseMap<MeshNode>
    var lastClock: nat

    ghost function Repr(): set<object> {
      {this} + store.Repr()
    }

    ghost predicate Valid()
      reads store.Repr()
    {
      store.Valid() && this !in store.Repr() && WellKeyed(store.Value())
    }

    ghost function Value(): Store<MeshNode>
      reads store.Repr()
    {
      store.Value()
    }

    constructor (meshId: MeshId, advertiseRoutes: bool, advertiseDefaultRoute: bool, nodeId: Key, staleTime: nat, zero: MeshNode)
      ensures Valid() && fresh(Repr())
      ensures Value() == Empty(nodeId, staleTime, zero)
      ensures this.meshId == meshId && this.advertiseRoutes == advertiseRoutes
      ensures this.advertiseDefaultRoute == advertiseDefaultRoute
    {
      this.meshId := meshId;
      this.advertiseRoutes := advertiseRoutes;
      this.advertiseDefaultRoute := advertiseDefaultRoute;
      store := new TwoPhaseMap<MeshNode>(nodeId, staleTime, zero);
      lastClock := 0;
    }

    /** Clears the routes of the node it is given. */
    method AddNode(node: MeshNode, now: nat)
      requires Valid()
      modifies store.Repr()
      ensures Valid()
      ensures Value() == Put(old(Value()), node.publicKey, node.(routes := map[]), now)
    {
      PutStamp(Value(), node.publicKey, node.(routes := map[]), now);
      store.Put(node.publicKey, node.(routes := map[]), now);
    }

    method GetNode(nodeId: Key) returns (node: Option<MeshNode>)
      requires Valid()
      ensures node.Some? <==> Contains(Value(), nodeId)
      ensures node.Some? ==> node.value == Value().add[nodeId].contents
    {
      var present := store.Contains(nodeId);
      if !present {
        return None;
      }
      var n := store.Get(nodeId);
      return Some(n);
    }

    method RemoveNode(nodeId: Key, now: nat) returns (ok: bool)
      requires Valid()
      modifies store.Repr()
      ensures Valid()
      ensures ok <==> old(Contains(Value(), nodeId))
      ensures Value() == if ok then Remove(old(Value()), nodeId, now) else old(Value())
    {
      ok := store.Contains(nodeId);
      if ok {
        store.Remove(nodeId, now);
      }
    }

    method Mark(nodeId: Key)
      requires Valid()
      modifies store.Repr()
      ensures Valid()
      ensures Value() == Replica.Mark(old(Value()), nodeId)
    {
      store.Mark(nodeId);
    }

    method HasChanges() returns (changed: bool)
      requires Valid()
      ensures changed <==> StoreHash(Value()) != lastClock
    {
      var h := store.GetHash();
      changed := h != lastClock;
    }

    method SaveChanges()
      requires Valid()
      modifies this`lastClock
      ensures lastClock == StoreHash(Value()) && Value() == old(Value())
    {
      lastClock := store.GetHash();
    }

    method AddRoutes(nodeId: Key, rs: seq<Route>, now: nat) returns (ok: bool)
      requires Valid()
      modifies store.Repr()
      ensures Valid()
      ensures ok <==> old(Contains(Value(), nodeId))
      ensures Value() == Advertise(old(Value()), nodeId, rs, now)
    {
      ok := store.Contains(nodeId);
      if !ok || rs == [] {
        return;
      }
      var node := store.Get(nodeId);
      ghost var t := node.routes;
      assert Keyed(t);
      AdvertiseKeyed(Value(), nodeId, rs, now);
      hide WellKeyed;
      var changes := false;
      for i := 0 to |rs|
        invariant Value() == old(Value()) && nodeId in Value().add
        invariant node.routes == AddAll(t, rs[..i])
        invariant changes <==> node.routes != t
        invariant node == Value().add[nodeId].contents.(routes := node.routes)
      {
        assert rs[..i + 1] == rs[..i] + [rs[i]];
        ChangeStays(t, rs[..i], rs[i]);
        AddAllSnoc(t, rs[..i], rs[i]);
        if rs[i].dest !in node.routes || Hops(rs[i]) < Hops(node.routes[rs[i].dest]) {
          changes := true;
          node := node.(routes := node.routes[rs[i].dest := rs[i]]);
        }
      }
      assert rs[..|rs|] == rs;
      AddAllLeast(t, rs);
      if changes {
        PutStamp(Value(), nodeId, node, now);
        store.Put(nodeId, node, now);
      }
    }

    method RemoveRoutes(nodeId: Key, rs: seq<Route>, now: nat) returns (ok: bool)
      requires Valid()
      modifies store.Repr()
      ensures Valid()
      ensures ok <==> old(Contains(Value(), nodeId))
      ensures Value() == Withdraw(old(Value()), nodeId, rs, now)
    {
      ok := store.Contains(nodeId);
      if !ok || rs == [] {
        return;
      }
      var node := store.Get(nodeId);
      ghost var t := node.routes;
      var changes := false;
      for i := 0 to |rs|
        invariant Value() == old(Value()) && nodeId in Value().add
        invariant node.routes == t - Dests(rs[..i])
        invariant changes <==> 0 < i
        invariant node == Value().add[nodeId].contents.(routes := node.routes)
      {
        changes := true;
        assert Dests(rs[..i + 1]) == Dests(rs[..i]) + {rs[i].dest} by { assert rs[..i + 1] == rs[..i] + [rs[i]]; }
        node := node.(routes := node.routes - {rs[i].dest});
      }
      assert rs[..|rs|] == rs;
      PutStamp(Value(), nodeId, node, now);
      store.Put(nodeId, node, now);
    }

    /** The contactable peers, each once. */
    method GetPeers() returns (peers: seq<Key>)
      requires Valid()
      ensures ArePeers(Value(), peers)
      ensures forall i, j :: 0 <= i < j < |peers| ==> peers[i] != peers[j]
    {
      var keys, nodes := store.AsList();
      peers := [];
      for i := 0 to |nodes|
        invariant forall k :: k in peers <==> IsPeer(Value(), k) && k in keys[..i]
        invariant forall j, l :: 0 <= j < l < |peers| ==> peers[j] != peers[l]
      {
        assert nodes[i].publicKey == keys[i] && keys[i] !in keys[..i];
        var marked := store.IsMarked(nodes[i].publicKey);
        if nodes[i].nodeType == Peer && !marked {
          peers := peers + [nodes[i].publicKey];
        }
        assert keys[..i + 1] == keys[..i] + [keys[i]];
      }
      assert keys[..|nodes|] == keys;
    }

    method GetRoutes(target: Key) returns (routes: Option<Table>, ghost peers: seq<Key>)
      requires Valid()
      ensures routes.Some? <==> Contains(Value(), target)
      ensures ArePeers(Value(), peers)
      ensures routes.Some? ==> LeastOffers(TablesOf(Value()), target, meshId, peers, routes.value)
    {
      var node := GetNode(target);
      var ps := GetPeers();
      peers := ps;
      if node == None {
        return None, peers;
      }
      ghost var ts := TablesOf(Value());
      var t := node.value.routes;
      OffersNone(ts, target, meshId);
      hide LeastOffers, WellKeyed, Replica.Contains;
      for i := 0 to |ps|
        invariant LeastOffers(ts, target, meshId, ps[..i], t)
      {
        assert IsPeer(Value(), ps[i]);
        t := AddPeer(target, ps[i], t, ps[..i]);
        assert ps[..i + 1] == ps[..i] + [ps[i]];
      }
      assert ps[..|ps|] == ps;
      return Some(t), peers;
    }

    /** The inner loop of GetRoutes: one more peer's routes, in any order. */
    method AddPeer(target: Key, p: Key, t0: Table, ghost seen: seq<Key>) returns (t: Table)
      requires Valid() && Contains(Value(), p) && Contains(Value(), target)
      requires LeastOffers(TablesOf(Value()), target, meshId, seen, t0)
      ensures LeastOffers(TablesOf(Value()), target, meshId, seen + [p], t)
    {
      assert Keyed(TableAt(Value(), p)) && Keyed(TableAt(Value(), target));
      hide LeastOffers, Grown, WellKeyed;
      ghost var ts := TablesOf(Value());
      var node := store.Get(p);
      var table := node.routes;
      var todo := table.Keys;
      t := t0;
      GrownStart(ts, target, p, meshId, seen, t);
      assert table.Keys - todo == {};
      while todo != {}
        invariant todo <= table.Keys
        invariant Grown(ts, target, p, meshId, seen, table.Keys - todo, t)
        decreases |todo|
      {
        var d :| d in todo;
        GrownStep(ts, target, p, meshId, seen, table.Keys - todo, t, d);
        assert table.Keys - (todo - {d}) == (table.Keys - todo) + {d};
        todo := todo - {d};
        var route := table[d];
        if route.dest !in t || Hops(route) + 1 < Hops(t[route.dest]) {
          t := t[route.dest := Route(route.dest, route.path + [meshId])];
        }
      }
      assert table.Keys - {} == table.Keys;
      GrownEnd(ts, target, p, meshId, seen, t);
    }
  }
}
