/** pkg/mesh/route.go */
module RouteManagers {
  import opened NatMaps
  import opened Replica
  import opened Causality
  import opened RouteTables
  import opened Datastores
  import opened RouteLeaking

  /** No route in the store has an empty path, as every reachable state guarantees. */
  ghost predicate PathsOk(s: Store<MeshNode>) {
    forall k, d :: k in s.add && d in s.add[k].contents.routes ==> s.add[k].contents.routes[d].path != []
  }

  ghost predicate TablePaths(t: Table) {
    forall d :: d in t ==> t[d].path != []
  }

  // ---- The inner loop: leaking one mesh into all others ----

  method MapValues(t: Table) returns (rs: seq<Route>)
    requires Keyed(t)
    ensures forall r :: r in rs <==> r.dest in t && t[r.dest] == r
  {
    rs := [];
    var todo := t.Keys;
    while todo != {}
      invariant todo <= t.Keys
      invariant forall r :: r in rs <==> r.dest in t && t[r.dest] == r && r.dest !in todo
      decreases |todo|
    {
      var d :| d in todo;
      rs := rs + [t[d]];
      todo := todo - {d};
    }
  }

  method FilterLoops(m: MeshId, rs: seq<Route>) returns (kept: seq<Route>)
    requires forall r :: r in rs ==> r.path != []
    ensures forall r :: r in kept <==> r in rs && Passes(m, r)
  {
    kept := [];
    for i := 0 to |rs|
      invariant forall r :: r in kept <==> r in rs[..i] && Passes(m, r)
    {
      assert rs[..i + 1] == rs[..i] + [rs[i]];
      if Passes(m, rs[i]) {
        kept := kept + [rs[i]];
      }
    }
    assert rs[..|rs|] == rs;
  }

  /** Every computed route has a path, and passed the filter of its mesh. */
  ghost predicate Computed(routes: map<MeshId, seq<Route>>) {
    forall m, r :: m in routes && r in routes[m] ==> r.path != [] && Passes(m, r)
  }

  method LeakFrom(m1: MeshId, routeMap: Table, routes0: map<MeshId, seq<Route>>) returns (routes: map<MeshId, seq<Route>>)
    requires Keyed(routeMap) && TablePaths(routeMap) && Computed(routes0)
    ensures routes.Keys == routes0.Keys && Computed(routes)
    ensures m1 in routes0 ==> routes[m1] == routes0[m1]
    ensures forall m, r :: m in routes && m != m1 ==>
      (r in routes[m] <==> r in routes0[m] || (r.path != [] && Candidate(map[m1 := routeMap], m1, r) && Passes(m, r)))
  {
    routes := routes0;
    var todo := routes.Keys;
    while todo != {}
      invariant todo <= routes0.Keys && routes.Keys == routes0.Keys
      invariant forall m :: m in todo || m == m1 ==> m in routes ==> routes[m] == routes0[m]
      invariant forall m, r :: m in routes && m !in todo && m != m1 ==>
        (r in routes[m] <==> r in routes0[m] || (r.path != [] && Candidate(map[m1 := routeMap], m1, r) && Passes(m, r)))
      decreases |todo|
    {
      var m2 :| m2 in todo;
      todo := todo - {m2};
      if m2 != m1 {
        var values := MapValues(routeMap);
        var all := routes[m2] + [Route(MeshPrefix(m1), [m1])] + values;
        assert forall r :: r in all <==> r in routes0[m2] || Candidate(map[m1 := routeMap], m1, r);
        var kept := FilterLoops(m2, all);
        routes := routes[m2 := kept];
      }
    }
  }

  // ---- Withdraw, then add ----

  /** Installs the computed routes as the node's own table. Repeating it with the same routes writes nothing. */
  method Install(mesh: Datastore, self: Key, meshRoutes: seq<Route>, now: nat) returns (ok: bool)
    requires mesh.Valid() && Stamped(mesh.Value()) && mesh.store.clock.processId == self
    modifies mesh.store.Repr()
    ensures mesh.Valid()
    ensures ok <==> old(Contains(mesh.Value(), self))
    ensures !ok ==> mesh.Value() == old(mesh.Value())
    ensures ok ==> exists t :: Installed(t, meshRoutes) && Rewrote(old(mesh.Value()), mesh.Value(), self, t)
    ensures ok && Installed(old(TableAt(mesh.Value(), self)), meshRoutes) ==> mesh.Value() == old(mesh.Value())
  {
    ghost var s := mesh.Value();
    var node := mesh.GetNode(self);
    if node == None {
      return false;
    }
    var prev := MapValues(node.value.routes);
    var toRemove := [];
    for i := 0 to |prev|
      invariant forall r :: r in toRemove <==> r in prev[..i] && r !in meshRoutes
    {
      assert prev[..i + 1] == prev[..i] + [prev[i]];
      if prev[i] !in meshRoutes {
        toRemove := toRemove + [prev[i]];
      }
    }
    assert prev[..|prev|] == prev;
    ghost var t := TableAt(s, self);
    WithdrawThenAdd(t, toRemove, meshRoutes);
    WithdrawRewrites(s, toRemove, now);
    AdvertiseRewrites(Withdraw(s, self, toRemove, now), meshRoutes, now);
    var _ := mesh.RemoveRoutes(self, toRemove, now);
    var _ := mesh.AddRoutes(self, meshRoutes, now);
    assert Rewrote(s, mesh.Value(), self, AddAll(t - Dests(toRemove), meshRoutes));
    return true;
  }

  /** Own writes only: every other node's entry is untouched, and the own one is still there. */
  ghost predicate Kept(s: Store<MeshNode>, s': Store<MeshNode>, self: Key) {
    && s'.add.Keys == s.add.Keys && s'.rem == s.rem && s'.clock.self == s.clock.self
    && (forall k :: k in s.add && k != self ==> s'.add[k] == s.add[k])
    && (Contains(s', self) <==> Contains(s, self))
    && Stamped(s') && WellKeyed(s')
  }

  ghost function ConfOf(mesh: Datastore): MeshConf {
    MeshConf(mesh.advertiseRoutes, mesh.advertiseDefaultRoute)
  }

  lemma AddAllOne(t: Table, r: Route)
    ensures AddAll(t, [r]) == AddOne(t, r)
  {
    AddAllSnoc(t, [], r);
    assert [] + [r] == [r];
  }

  lemma KeptTables(s: Store<MeshNode>, s': Store<MeshNode>, self: Key)
    requires Kept(s, s', self) && self in s.add
    ensures TablesOf(s') == TablesOf(s)[self := TableAt(s', self)]
  {}

  lemma OffersHavePaths(s: Store<MeshNode>, target: Key, m: MeshId, peers: seq<Key>, t: Table)
    requires PathsOk(s) && LeastOffers(TablesOf(s), target, m, peers, t)
    ensures TablePaths(t) && Keyed(t)
  {
    forall d | d in t ensures t[d].path != [] {
      assert Offered(TablesOf(s), target, m, t[d], peers);
    }
  }

  lemma KeptItself(s: Store<MeshNode>, self: Key, m: MeshId, conf: MeshConf)
    requires Stamped(s) && WellKeyed(s)
    ensures Kept(s, s, self) && Defaulted(TableAt(s, self), m, conf, TableAt(s, self))
  {}

  method AddDefault(mesh: Datastore, self: Key, now: nat)
    requires mesh.Valid() && Stamped(mesh.Value()) && mesh.store.clock.processId == self && PathsOk(mesh.Value())
    requires mesh.advertiseRoutes && Contains(mesh.Value(), self)
    modifies mesh.store.Repr()
    ensures mesh.Valid() && Kept(old(mesh.Value()), mesh.Value(), self) && PathsOk(mesh.Value())
    ensures Contains(mesh.Value(), self)
    ensures Defaulted(old(TableAt(mesh.Value(), self)), mesh.meshId, ConfOf(mesh), TableAt(mesh.Value(), self))
    ensures mesh.advertiseDefaultRoute ==>
      && DefaultRoute in TableAt(mesh.Value(), self) && TableAt(mesh.Value(), self)[DefaultRoute].dest == DefaultRoute
      && Hops(TableAt(mesh.Value(), self)[DefaultRoute]) <= 1
  {
    if mesh.advertiseDefaultRoute {
      ghost var s := mesh.Value();
      var route := Route(DefaultRoute, [mesh.meshId]);
      AdvertiseRewrites(s, [route], now);
      AddAllOne(TableAt(s, self), route);
      var _ := mesh.AddRoutes(self, [route], now);
      hide Advertise;
      DefaultPaths(s, mesh.Value(), self, route);
    }
  }

  lemma DefaultPaths(s: Store<MeshNode>, s': Store<MeshNode>, self: Key, route: Route)
    requires PathsOk(s) && Rewrote(s, s', self, AddOne(TableAt(s, self), route)) && route.path != []
    ensures PathsOk(s')
  {
    forall k, d | k in s'.add && d in s'.add[k].contents.routes ensures s'.add[k].contents.routes[d].path != [] {
      if k == self {
        assert TableAt(s', self) == s'.add[k].contents.routes && TableAt(s, self) == s.add[k].contents.routes;
      }
    }
  }

  /** The part of the outer loop that touches one mesh: its default route, and the routes found in it. */
  method Gather(mesh: Datastore, self: Key, now: nat) returns (routeMap: Option<Table>, ghost peers: seq<Key>)
    requires mesh.Valid() && Stamped(mesh.Value()) && mesh.store.clock.processId == self && PathsOk(mesh.Value())
    requires mesh.advertiseRoutes
    modifies mesh.store.Repr()
    ensures mesh.Valid() && Kept(old(mesh.Value()), mesh.Value(), self) && PathsOk(mesh.Value())
    ensures routeMap.Some? <==> old(Contains(mesh.Value(), self))
    ensures routeMap == None ==> mesh.Value() == old(mesh.Value())
    ensures Defaulted(old(TableAt(mesh.Value(), self)), mesh.meshId, ConfOf(mesh), TableAt(mesh.Value(), self))
    ensures routeMap.Some? ==>
      && ArePeers(mesh.Value(), peers) && Keyed(routeMap.value) && TablePaths(routeMap.value)
      && LeastOffers(TablesOf(mesh.Value()), self, mesh.meshId, peers, routeMap.value)
    ensures routeMap.Some? && mesh.advertiseDefaultRoute ==>
      DefaultRoute in routeMap.value && Hops(routeMap.value[DefaultRoute]) <= 1
  {
    hide Kept, Defaulted, LeastOffers, Stamped;
    KeptItself(mesh.Value(), self, mesh.meshId, ConfOf(mesh));
    var node := mesh.GetNode(self);
    if node == None {
      return None, [];
    }
    AddDefault(mesh, self, now);
    routeMap, peers := mesh.GetRoutes(self);
    OffersHavePaths(mesh.Value(), self, mesh.meshId, peers, routeMap.value);
    if mesh.advertiseDefaultRoute {
      OwnIsOffered(TablesOf(mesh.Value()), self, mesh.meshId, peers, routeMap.value, DefaultRoute);
    }
  }

  /** What the node has itself is found, and no further away. */
  lemma OwnIsOffered(ts: Tables, target: Key, m: MeshId, peers: seq<Key>, t: Table, d: Dest)
    requires LeastOffers(ts, target, m, peers, t) && d in TableIn(ts, target) && TableIn(ts, target)[d].dest == d
    ensures d in t && Hops(t[d]) <= Hops(TableIn(ts, target)[d])
  {
    assert Offered(ts, target, m, TableIn(ts, target)[d], peers);
  }

  // ---- The whole update ----

  /** One more mesh leaked from. */
  lemma LeakedMore(confs: map<MeshId, MeshConf>, routeMaps: map<MeshId, Table>, done: set<MeshId>,
                   m1: MeshId, routeMap: Table, m: MeshId, r: Route)
    requires m1 !in done && m1 in confs && confs[m1].advertise
    ensures Leaked(confs, routeMaps[m1 := routeMap], done + {m1}, m, r) <==>
      || Leaked(confs, routeMaps, done, m, r)
      || (m == m1 && confs[m].defaultRoute && r == Route(DefaultRoute, [m]))
      || (m != m1 && r.path != [] && Candidate(map[m1 := routeMap], m1, r) && Passes(m, r))
  {
    forall m2 | m2 in done ensures Candidate(routeMaps[m1 := routeMap], m2, r) <==> Candidate(routeMaps, m2, r) {}
    assert Candidate(routeMaps[m1 := routeMap], m1, r) <==> Candidate(map[m1 := routeMap], m1, r);
  }

  lemma LeakedSkip(confs: map<MeshId, MeshConf>, routeMaps: map<MeshId, Table>, done: set<MeshId>, m1: MeshId, m: MeshId, r: Route)
    requires m1 in confs && !confs[m1].advertise
    ensures Leaked(confs, routeMaps, done + {m1}, m, r) <==> Leaked(confs, routeMaps, done, m, r)
  {}

  /** The routes computed so far are exactly the leaked ones. */
  ghost predicate Exact(confs: map<MeshId, MeshConf>, routeMaps: map<MeshId, Table>, done: set<MeshId>, routes: map<MeshId, seq<Route>>) {
    && routes.Keys == confs.Keys
    && forall m, r :: m in routes ==> (r in routes[m] <==> Leaked(confs, routeMaps, done, m, r))
  }

  lemma ExactComputed(confs: map<MeshId, MeshConf>, routeMaps: map<MeshId, Table>, done: set<MeshId>, routes: map<MeshId, seq<Route>>)
    requires Exact(confs, routeMaps, done, routes)
    ensures Computed(routes)
  {
    forall m, r | m in routes && r in routes[m] ensures r.path != [] && Passes(m, r) {
      assert Leaked(confs, routeMaps, done, m, r);
    }
  }

  /** The body of the outer loop after its mesh has been read. */
  method LeakMesh(m1: MeshId, routeMap: Table, routes0: map<MeshId, seq<Route>>,
                  ghost confs: map<MeshId, MeshConf>, ghost routeMaps: map<MeshId, Table>, ghost done: set<MeshId>,
                  defaultRoute: bool) returns (routes: map<MeshId, seq<Route>>)
    requires Keyed(routeMap) && TablePaths(routeMap) && Exact(confs, routeMaps, done, routes0)
    requires m1 !in done && m1 in confs && confs[m1] == MeshConf(true, defaultRoute)
    ensures Exact(confs, routeMaps[m1 := routeMap], done + {m1}, routes)
  {
    ExactComputed(confs, routeMaps, done, routes0);
    routes := routes0;
    if defaultRoute {
      routes := routes[m1 := routes[m1] + [Route(DefaultRoute, [m1])]];
    }
    ghost var withDefault := routes;
    hide Leaked;
    routes := LeakFrom(m1, routeMap, routes);
    forall m, r | m in routes
      ensures r in routes[m] <==> Leaked(confs, routeMaps[m1 := routeMap], done + {m1}, m, r)
    {
      LeakedMore(confs, routeMaps, done, m1, routeMap, m, r);
      if m == m1 {
        assert r in withDefault[m] <==> r in routes0[m] || (defaultRoute && r == Route(DefaultRoute, [m]));
      }
    }
  }

  lemma InstalledIsExact(confs: map<MeshId, MeshConf>, routeMaps: map<MeshId, Table>, routes: map<MeshId, seq<Route>>, m: MeshId, t: Table)
    requires Exact(confs, routeMaps, confs.Keys, routes) && m in confs && Installed(t, routes[m])
    ensures InstalledLeaks(confs, routeMaps, m, t)
  {
    hide Leaked;
  }

  ghost function Footprint(meshes: map<MeshId, Datastore>): set<object> {
    set m: MeshId, o: object | m in meshes && o in meshes[m].store.Repr() :: o
  }

  ghost function Confs(meshes: map<MeshId, Datastore>): map<MeshId, MeshConf> {
    map m | m in meshes :: ConfOf(meshes[m])
  }

  /** The datastores share no object, know their own mesh ids, and belong to this node. */
  ghost predicate Separate(meshes: map<MeshId, Datastore>, self: Key) {
    && (forall m :: m in meshes ==> meshes[m].meshId == m && meshes[m].store.clock.processId == self)
    && (forall m, n :: m in meshes && n in meshes && m != n ==> meshes[m].store.Repr() !! meshes[n].store.Repr())
  }

  type Meshes = map<MeshId, Datastore>

  ghost predicate Ready(mesh: Datastore)
    reads mesh.store.Repr()
  {
    mesh.Valid() && Stamped(mesh.Value()) && PathsOk(mesh.Value())
  }

  /** The contactable peers of a mesh, and the routes found there. */
  datatype Finding = Finding(peers: seq<Key>, routes: Table)

  ghost function Find(peersOf: map<MeshId, seq<Key>>, routeMaps: map<MeshId, Table>, m: MeshId): Option<Finding> {
    if m in peersOf && m in routeMaps then Some(Finding(peersOf[m], routeMaps[m])) else None
  }

  /** What one mesh has come to once the outer loop has passed it: at most its default route added, and,
      if it advertises, its routes found. */
  ghost predicate Passed(s: Store<MeshNode>, mesh: Datastore, self: Key, visited: bool, found: Option<Finding>)
    reads mesh.store.Repr()
  {
    && Ready(mesh) && Kept(s, mesh.Value(), self)
    && Defaulted(TableAt(s, self), mesh.meshId, ConfOf(mesh), TableAt(mesh.Value(), self))
    && (!visited ==> mesh.Value() == s)
    && (visited && mesh.advertiseRoutes ==>
         && Contains(s, self) && found.Some? && ArePeers(mesh.Value(), found.value.peers)
         && LeastOffers(TablesOf(mesh.Value()), self, mesh.meshId, found.value.peers, found.value.routes)
         && (mesh.advertiseDefaultRoute ==>
              DefaultRoute in found.value.routes && Hops(found.value.routes[DefaultRoute]) <= 1))
  }

  ghost predicate AllPassed(stores: map<MeshId, Store<MeshNode>>, meshes: Meshes, self: Key, done: set<MeshId>,
                            peersOf: map<MeshId, seq<Key>>, routeMaps: map<MeshId, Table>)
    reads Footprint(meshes)
  {
    && stores.Keys == meshes.Keys
    && forall m :: m in meshes ==> Passed(stores[m], meshes[m], self, m in done, Find(peersOf, routeMaps, m))
  }

  method VisitOne(mesh: Datastore, self: Key, ghost found: Option<Finding>, now: nat) returns (routeMap: Option<Table>, ghost peers: seq<Key>)
    requires Ready(mesh) && mesh.store.clock.processId == self && mesh.advertiseRoutes
    modifies mesh.store.Repr()
    ensures routeMap == None ==>
      !old(Contains(mesh.Value(), self)) && Passed(old(mesh.Value()), mesh, self, false, found)
    ensures routeMap.Some? ==>
      && Keyed(routeMap.value) && TablePaths(routeMap.value)
      && Passed(old(mesh.Value()), mesh, self, true, Some(Finding(peers, routeMap.value)))
  {
    hide Defaulted, LeastOffers, ArePeers;
    routeMap, peers := Gather(mesh, self, now);
  }

  /** One iteration over an advertising mesh; the other meshes are other objects. */
  method Visit(m1: MeshId, meshes: Meshes, self: Key, ghost stores: map<MeshId, Store<MeshNode>>, ghost done: set<MeshId>,
               ghost peersOf: map<MeshId, seq<Key>>, ghost routeMaps: map<MeshId, Table>,
               routes0: map<MeshId, seq<Route>>, now: nat)
    returns (routes: Option<map<MeshId, seq<Route>>>, ghost peers: seq<Key>, ghost routeMap: Table)
    requires Separate(meshes, self) && AllPassed(stores, meshes, self, done, peersOf, routeMaps)
    requires m1 in meshes && m1 !in done && meshes[m1].advertiseRoutes
    requires Exact(Confs(meshes), routeMaps, done, routes0)
    modifies meshes[m1].store.Repr()
    ensures routes == None ==> !Contains(stores[m1], self) && AllPassed(stores, meshes, self, done, peersOf, routeMaps)
    ensures routes.Some? ==>
      && AllPassed(stores, meshes, self, done + {m1}, peersOf[m1 := peers], routeMaps[m1 := routeMap])
      && Exact(Confs(meshes), routeMaps[m1 := routeMap], done + {m1}, routes.value)
  {
    hide Exact, Passed, Ready, Find, Keyed, TablePaths, Leaked;
    UnvisitedReady(stores[m1], meshes[m1], self, Find(peersOf, routeMaps, m1));
    var result, ps := VisitOne(meshes[m1], self, Find(peersOf, routeMaps, m1), now);
    peers, routeMap := ps, map[];
    assert forall m :: m in meshes && m != m1 ==> Passed(stores[m], meshes[m], self, m in done, Find(peersOf, routeMaps, m));
    if result == None {
      return None, peers, routeMap;
    }
    routeMap := result.value;
    var leaked := LeakMesh(m1, result.value, routes0, Confs(meshes), routeMaps, done, meshes[m1].advertiseDefaultRoute);
    routes := Some(leaked);
    OneMorePassed(stores, meshes, self, done, peersOf, routeMaps, m1, peers, routeMap);
  }

  lemma UnvisitedReady(s: Store<MeshNode>, mesh: Datastore, self: Key, found: Option<Finding>)
    requires Passed(s, mesh, self, false, found)
    ensures Ready(mesh) && mesh.Value() == s
  {}

  lemma OneMorePassed(stores: map<MeshId, Store<MeshNode>>, meshes: Meshes, self: Key, done: set<MeshId>,
                      peersOf: map<MeshId, seq<Key>>, routeMaps: map<MeshId, Table>, m1: MeshId, peers: seq<Key>, routeMap: Table)
    requires stores.Keys == meshes.Keys && m1 in meshes
    requires forall m :: m in meshes && m != m1 ==> Passed(stores[m], meshes[m], self, m in done, Find(peersOf, routeMaps, m))
    requires Passed(stores[m1], meshes[m1], self, true, Some(Finding(peers, routeMap)))
    ensures AllPassed(stores, meshes, self, done + {m1}, peersOf[m1 := peers], routeMaps[m1 := routeMap])
  {
    hide Passed;
  }

  /** The outer loop: default routes, route maps, and the routes computed for every mesh. */
  method Compute(meshes: Meshes, self: Key, ghost stores: map<MeshId, Store<MeshNode>>, now: nat)
    returns (routes: Option<map<MeshId, seq<Route>>>, ghost peersOf: map<MeshId, seq<Key>>, ghost routeMaps: map<MeshId, Table>)
    requires Separate(meshes, self) && AllPassed(stores, meshes, self, {}, map[], map[])
    modifies Footprint(meshes)
    ensures routes.Some? ==>
      && Exact(Confs(meshes), routeMaps, meshes.Keys, routes.value)
      && AllPassed(stores, meshes, self, meshes.Keys, peersOf, routeMaps)
    ensures routes == None ==>
      && (exists m :: m in meshes && !Contains(stores[m], self))
      && exists done: set<MeshId> :: AllPassed(stores, meshes, self, done, peersOf, routeMaps)
  {
    ghost var confs := Confs(meshes);
    var computed: map<MeshId, seq<Route>> := map m | m in meshes :: [];
    peersOf, routeMaps := map[], map[];
    var todo := meshes.Keys;
    ghost var done := {};
    hide AllPassed, Exact, Separate;
    assert Exact(confs, routeMaps, done, computed) by { ExactNone(confs, routeMaps, computed); }
    while todo != {}
      invariant todo <= meshes.Keys && done == meshes.Keys - todo
      invariant AllPassed(stores, meshes, self, done, peersOf, routeMaps)
      invariant Exact(confs, routeMaps, done, computed)
      decreases |todo|
    {
      var m1 :| m1 in todo;
      todo := todo - {m1};
      if !meshes[m1].advertiseRoutes {
        PassOver(stores, meshes, self, done, peersOf, routeMaps, m1);
        ExactOver(confs, routeMaps, done, computed, m1);
      } else {
        FootprintHas(meshes, m1);
        var routes', peers, routeMap := Visit(m1, meshes, self, stores, done, peersOf, routeMaps, computed, now);
        if routes' == None {
          return None, peersOf, routeMaps;
        }
        computed := routes'.value;
        peersOf, routeMaps := peersOf[m1 := peers], routeMaps[m1 := routeMap];
      }
      done := done + {m1};
    }
    assert done == meshes.Keys;
    assert Exact(Confs(meshes), routeMaps, meshes.Keys, computed);
    return Some(computed), peersOf, routeMaps;
  }

  lemma ExactNone(confs: map<MeshId, MeshConf>, routeMaps: map<MeshId, Table>, routes: map<MeshId, seq<Route>>)
    requires routes.Keys == confs.Keys && forall m :: m in routes ==> routes[m] == []
    ensures Exact(confs, routeMaps, {}, routes)
  {}

  lemma ExactOver(confs: map<MeshId, MeshConf>, routeMaps: map<MeshId, Table>, done: set<MeshId>, routes: map<MeshId, seq<Route>>, m1: MeshId)
    requires Exact(confs, routeMaps, done, routes) && m1 in confs && !confs[m1].advertise
    ensures Exact(confs, routeMaps, done + {m1}, routes)
  {
    hide Leaked;
    forall m, r | m in routes ensures r in routes[m] <==> Leaked(confs, routeMaps, done + {m1}, m, r) {
      LeakedSkip(confs, routeMaps, done, m1, m, r);
    }
  }

  lemma PassOver(stores: map<MeshId, Store<MeshNode>>, meshes: Meshes, self: Key, done: set<MeshId>,
                 peersOf: map<MeshId, seq<Key>>, routeMaps: map<MeshId, Table>, m1: MeshId)
    requires Separate(meshes, self) && AllPassed(stores, meshes, self, done, peersOf, routeMaps)
    requires m1 in meshes && !meshes[m1].advertiseRoutes
    ensures AllPassed(stores, meshes, self, done + {m1}, peersOf, routeMaps)
  {
    forall m | m in meshes ensures Passed(stores[m], meshes[m], self, m in done + {m1}, Find(peersOf, routeMaps, m)) {
      assert Passed(stores[m], meshes[m], self, m in done, Find(peersOf, routeMaps, m));
    }
  }

  lemma FootprintHas(meshes: Meshes, m: MeshId)
    requires m in meshes
    ensures meshes[m].store.Repr() <= Footprint(meshes)
  {
    forall o | o in meshes[m].store.Repr() ensures o in Footprint(meshes) {
      assert m in meshes && o in meshes[m].store.Repr();
    }
  }

  // ---- The second loop, and the whole ----

  /** What one mesh has come to at the end: its own writes only, and the computed routes once installed. */
  ghost predicate Finished(s: Store<MeshNode>, mesh: Datastore, self: Key, installed: bool,
                           confs: map<MeshId, MeshConf>, routeMaps: map<MeshId, Table>)
    reads mesh.store.Repr()
  {
    && mesh.Valid() && Stamped(mesh.Value()) && Kept(s, mesh.Value(), self)
    && (installed ==> Contains(s, self) && InstalledLeaks(confs, routeMaps, mesh.meshId, TableAt(mesh.Value(), self)))
    && (!installed ==> Defaulted(TableAt(s, self), mesh.meshId, ConfOf(mesh), TableAt(mesh.Value(), self)))
  }

  ghost predicate AllFinished(stores: map<MeshId, Store<MeshNode>>, meshes: Meshes, self: Key, done: set<MeshId>,
                              routeMaps: map<MeshId, Table>)
    reads Footprint(meshes)
  {
    && stores.Keys == meshes.Keys
    && forall m :: m in meshes ==> Finished(stores[m], meshes[m], self, m in done, Confs(meshes), routeMaps)
  }

  lemma PassedFinished(stores: map<MeshId, Store<MeshNode>>, meshes: Meshes, self: Key, done: set<MeshId>,
                       peersOf: map<MeshId, seq<Key>>, routeMaps: map<MeshId, Table>)
    requires AllPassed(stores, meshes, self, done, peersOf, routeMaps)
    ensures AllFinished(stores, meshes, self, {}, routeMaps)
  {
    hide Kept, Defaulted, LeastOffers, ArePeers, InstalledLeaks;
    forall m | m in meshes ensures Finished(stores[m], meshes[m], self, false, Confs(meshes), routeMaps) {
      assert Passed(stores[m], meshes[m], self, m in done, Find(peersOf, routeMaps, m));
    }
  }

  lemma KeptThenRewrote(s: Store<MeshNode>, s1: Store<MeshNode>, s2: Store<MeshNode>, self: Key, t: Table)
    requires Kept(s, s1, self) && Contains(s1, self) && Rewrote(s1, s2, self, t)
    ensures Kept(s, s2, self)
  {}

  method FinishOne(mesh: Datastore, self: Key, ghost s: Store<MeshNode>, ghost confs: map<MeshId, MeshConf>,
                   ghost routeMaps: map<MeshId, Table>, ghost routes: map<MeshId, seq<Route>>, meshRoutes: seq<Route>, now: nat)
    returns (ok: bool)
    requires Finished(s, mesh, self, false, confs, routeMaps) && mesh.store.clock.processId == self
    requires Exact(confs, routeMaps, confs.Keys, routes) && mesh.meshId in routes && meshRoutes == routes[mesh.meshId]
    modifies mesh.store.Repr()
    ensures !ok ==> !Contains(s, self) && Finished(s, mesh, self, false, confs, routeMaps)
    ensures ok ==> Finished(s, mesh, self, true, confs, routeMaps)
  {
    hide Exact, Installed, InstalledLeaks;
    ghost var s1 := mesh.Value();
    ok := Install(mesh, self, meshRoutes, now);
    if ok {
      ghost var t :| Installed(t, meshRoutes) && Rewrote(s1, mesh.Value(), self, t);
      ExactKeys(confs, routeMaps, confs.Keys, routes);
      InstalledIsExact(confs, routeMaps, routes, mesh.meshId, t);
      KeptThenRewrote(s, s1, mesh.Value(), self, t);
    }
  }

  method Finish(m1: MeshId, meshes: Meshes, self: Key, ghost stores: map<MeshId, Store<MeshNode>>, ghost done: set<MeshId>,
                ghost routeMaps: map<MeshId, Table>, routes: map<MeshId, seq<Route>>, now: nat)
    returns (ok: bool)
    requires Separate(meshes, self) && AllFinished(stores, meshes, self, done, routeMaps)
    requires m1 in meshes && m1 !in done && Exact(Confs(meshes), routeMaps, meshes.Keys, routes)
    modifies meshes[m1].store.Repr()
    ensures !ok ==> !Contains(stores[m1], self) && AllFinished(stores, meshes, self, done, routeMaps)
    ensures ok ==> AllFinished(stores, meshes, self, done + {m1}, routeMaps)
  {
    hide Exact, Finished, Footprint;
    assert Confs(meshes).Keys == meshes.Keys && m1 in routes by { ExactKeys(Confs(meshes), routeMaps, meshes.Keys, routes); }
    ok := FinishOne(meshes[m1], self, stores[m1], Confs(meshes), routeMaps, routes, routes[m1], now);
  }

  lemma ExactKeys(confs: map<MeshId, MeshConf>, routeMaps: map<MeshId, Table>, done: set<MeshId>, routes: map<MeshId, seq<Route>>)
    requires Exact(confs, routeMaps, done, routes)
    ensures routes.Keys == confs.Keys
  {}

  ghost function Stores(meshes: Meshes): map<MeshId, Store<MeshNode>>
    reads Footprint(meshes)
  {
    map m | m in meshes :: meshes[m].Value()
  }

  ghost function Views(stores: map<MeshId, Store<MeshNode>>): map<MeshId, Tables> {
    map m | m in stores :: TablesOf(stores[m])
  }

  ghost function OwnTables(stores: map<MeshId, Store<MeshNode>>, self: Key): map<MeshId, Table> {
    map m | m in stores :: TableAt(stores[m], self)
  }

  /** Every mesh keeps everything but the node's own entry. */
  ghost predicate AllKept(stores: map<MeshId, Store<MeshNode>>, stores': map<MeshId, Store<MeshNode>>, self: Key) {
    && stores'.Keys == stores.Keys
    && forall m :: m in stores ==> Kept(stores[m], stores'[m], self)
  }

  lemma StartPassed(meshes: Meshes, self: Key)
    requires forall m :: m in meshes ==> Ready(meshes[m])
    ensures AllPassed(Stores(meshes), meshes, self, {}, map[], map[])
  {}

  lemma FinishedOne(s: Store<MeshNode>, mesh: Datastore, self: Key, installed: bool,
                    confs: map<MeshId, MeshConf>, routeMaps: map<MeshId, Table>)
    requires Finished(s, mesh, self, installed, confs, routeMaps)
    ensures Kept(s, mesh.Value(), self)
    ensures Defaulted(TableAt(s, self), mesh.meshId, ConfOf(mesh), TableAt(mesh.Value(), self))
            || (installed && InstalledLeaks(confs, routeMaps, mesh.meshId, TableAt(mesh.Value(), self)))
  {}

  lemma FinishedAllowed(stores: map<MeshId, Store<MeshNode>>, meshes: Meshes, self: Key, done: set<MeshId>,
                        peersOf: map<MeshId, seq<Key>>, routeMaps: map<MeshId, Table>)
    requires Separate(meshes, self) && AllFinished(stores, meshes, self, done, routeMaps)
    requires done == {} || MapsOk(Views(stores), self, Confs(meshes), peersOf, routeMaps)
    ensures AllKept(stores, Stores(meshes), self)
    ensures UpdateAllowed(Views(stores), self, Confs(meshes), peersOf, routeMaps, OwnTables(Stores(meshes), self))
  {
    hide Kept, Defaulted, InstalledLeaks, MapsOk, Finished;
    var tables := OwnTables(Stores(meshes), self);
    forall m | m in meshes
      ensures Kept(stores[m], meshes[m].Value(), self) && tables[m] == TableAt(meshes[m].Value(), self)
      ensures Defaulted(TableIn(Views(stores)[m], self), m, Confs(meshes)[m], tables[m])
              || (m in done && InstalledLeaks(Confs(meshes), routeMaps, m, tables[m]))
    {
      FinishedOne(stores[m], meshes[m], self, m in done, Confs(meshes), routeMaps);
    }
  }

  lemma ReadyAgain(stores: map<MeshId, Store<MeshNode>>, meshes: Meshes, self: Key, done: set<MeshId>, routeMaps: map<MeshId, Table>)
    requires AllFinished(stores, meshes, self, done, routeMaps)
    requires forall m :: m in stores ==> PathsOk(stores[m])
    ensures forall m :: m in meshes ==> Ready(meshes[m])
  {
    forall m | m in meshes ensures Ready(meshes[m]) {
      assert Finished(stores[m], meshes[m], self, m in done, Confs(meshes), routeMaps);
      OwnPaths(stores[m], meshes[m].Value(), self, meshes[m].meshId, ConfOf(meshes[m]), Confs(meshes), routeMaps);
    }
  }

  lemma OwnPaths(s: Store<MeshNode>, s': Store<MeshNode>, self: Key, m: MeshId, conf: MeshConf, confs: map<MeshId, MeshConf>, routeMaps: map<MeshId, Table>)
    requires PathsOk(s) && Kept(s, s', self)
    requires Defaulted(TableAt(s, self), m, conf, TableAt(s', self)) || InstalledLeaks(confs, routeMaps, m, TableAt(s', self))
    ensures PathsOk(s')
  {
    forall k, d | k in s'.add && d in s'.add[k].contents.routes ensures s'.add[k].contents.routes[d].path != [] {
      if k == self {
        assert TableAt(s', self) == s'.add[k].contents.routes && TableAt(s, self) == s.add[k].contents.routes;
      }
    }
  }

  lemma MapsFound(stores: map<MeshId, Store<MeshNode>>, meshes: Meshes, self: Key,
                  peersOf: map<MeshId, seq<Key>>, routeMaps: map<MeshId, Table>)
    requires Separate(meshes, self) && AllPassed(stores, meshes, self, meshes.Keys, peersOf, routeMaps)
    ensures MapsOk(Views(stores), self, Confs(meshes), peersOf, routeMaps)
  {
    hide Kept, Defaulted, LeastOffers, ArePeers;
    forall m | m in meshes && meshes[m].advertiseRoutes
      ensures m in routeMaps && m in peersOf
      ensures exists own :: ReadWith(Views(stores)[m], self, m, Confs(meshes)[m], peersOf[m], routeMaps[m], own)
    {
      assert Passed(stores[m], meshes[m], self, true, Find(peersOf, routeMaps, m));
      var own := TableAt(meshes[m].Value(), self);
      KeptTables(stores[m], meshes[m].Value(), self);
      assert Views(stores)[m][self := own] == TablesOf(meshes[m].Value());
      assert ReadWith(Views(stores)[m], self, m, Confs(meshes)[m], peersOf[m], routeMaps[m], own);
    }
  }

  /** The peers asked in an advertising mesh are its contactable peers, the node itself aside. */
  ghost predicate PeersAsked(stores: map<MeshId, Store<MeshNode>>, confs: map<MeshId, MeshConf>, self: Key, peersOf: map<MeshId, seq<Key>>) {
    forall m :: m in confs && confs[m].advertise && m in stores ==>
      m in peersOf && forall p :: p != self ==> (p in peersOf[m] <==> IsPeer(stores[m], p))
  }

  lemma PeersFound(stores: map<MeshId, Store<MeshNode>>, meshes: Meshes, self: Key,
                   peersOf: map<MeshId, seq<Key>>, routeMaps: map<MeshId, Table>)
    requires AllPassed(stores, meshes, self, meshes.Keys, peersOf, routeMaps)
    ensures PeersAsked(stores, Confs(meshes), self, peersOf)
  {
    hide Defaulted, LeastOffers;
    forall m | m in meshes && meshes[m].advertiseRoutes
      ensures m in peersOf && forall p :: p != self ==> (p in peersOf[m] <==> IsPeer(stores[m], p))
    {
      assert Passed(stores[m], meshes[m], self, true, Find(peersOf, routeMaps, m));
      SamePeersBut(stores[m], meshes[m].Value(), self);
    }
  }

  lemma SamePeersBut(s: Store<MeshNode>, s': Store<MeshNode>, self: Key)
    requires Kept(s, s', self)
    ensures forall p :: p != self ==> (IsPeer(s, p) <==> IsPeer(s', p))
  {
    hide Stamped, WellKeyed;
  }

  /** What the update must spread: every advertising mesh, and the default route of those that advertise it. */
  lemma DefaultsFound(stores: map<MeshId, Store<MeshNode>>, meshes: Meshes, self: Key,
                      peersOf: map<MeshId, seq<Key>>, routeMaps: map<MeshId, Table>)
    requires AllPassed(stores, meshes, self, meshes.Keys, peersOf, routeMaps)
    ensures forall m :: m in meshes && meshes[m].advertiseRoutes && meshes[m].advertiseDefaultRoute ==>
      m in routeMaps && DefaultRoute in routeMaps[m] && Hops(routeMaps[m][DefaultRoute]) <= 1
    ensures forall m :: m in meshes && meshes[m].advertiseRoutes ==> m in routeMaps && TablePaths(routeMaps[m]) && Keyed(routeMaps[m])
  {
    hide Kept, Defaulted, ArePeers, LeastOffers;
    forall m | m in meshes && meshes[m].advertiseRoutes
      ensures m in routeMaps && TablePaths(routeMaps[m]) && Keyed(routeMaps[m])
      ensures meshes[m].advertiseDefaultRoute ==> DefaultRoute in routeMaps[m] && Hops(routeMaps[m][DefaultRoute]) <= 1
    {
      assert Passed(stores[m], meshes[m], self, true, Find(peersOf, routeMaps, m));
      OffersHavePaths(meshes[m].Value(), self, meshes[m].meshId, peersOf[m], routeMaps[m]);
    }
  }

  /** A route found at one hop, or computed for this mesh at one hop, is installed at one hop. */
  lemma OneHopInstalled(confs: map<MeshId, MeshConf>, routeMaps: map<MeshId, Table>, m: MeshId, t: Table, r: Route)
    requires InstalledLeaks(confs, routeMaps, m, t) && Leaked(confs, routeMaps, confs.Keys, m, r) && Hops(r) <= 1
    ensures r.dest in t && Hops(t[r.dest]) == 1
  {
    assert Leaked(confs, routeMaps, confs.Keys, m, t[r.dest]);
  }

  lemma DefaultSpreads(confs: map<MeshId, MeshConf>, routeMaps: map<MeshId, Table>, n: MeshId, m: MeshId, t: Table)
    requires InstalledLeaks(confs, routeMaps, m, t) && m in confs && n in confs && confs[n] == MeshConf(true, true)
    requires n in routeMaps && DefaultRoute in routeMaps[n] && Hops(routeMaps[n][DefaultRoute]) <= 1
    requires TablePaths(routeMaps[n]) && Keyed(routeMaps[n])
    ensures DefaultRoute in t && Hops(t[DefaultRoute]) == 1
  {
    if m == n {
      OneHopInstalled(confs, routeMaps, m, t, Route(DefaultRoute, [m]));
    } else {
      var r := routeMaps[n][DefaultRoute];
      assert Candidate(routeMaps, n, r) && Passes(m, r);
      OneHopInstalled(confs, routeMaps, m, t, r);
    }
  }

  lemma PrefixSpreads(confs: map<MeshId, MeshConf>, routeMaps: map<MeshId, Table>, n: MeshId, m: MeshId, t: Table)
    requires InstalledLeaks(confs, routeMaps, m, t) && n in confs && confs[n].advertise && n != m
    ensures MeshPrefix(n) in t && Hops(t[MeshPrefix(n)]) == 1
  {
    var r := Route(MeshPrefix(n), [n]);
    assert Candidate(routeMaps, n, r) && Passes(m, r);
    OneHopInstalled(confs, routeMaps, m, t, r);
  }

  lemma OwnPrefixStaysOut(confs: map<MeshId, MeshConf>, routeMaps: map<MeshId, Table>, m: MeshId, t: Table)
    requires InstalledLeaks(confs, routeMaps, m, t)
    ensures MeshPrefix(m) !in t
  {
    assert forall r :: Leaked(confs, routeMaps, confs.Keys, m, r) ==> r.dest != MeshPrefix(m);
  }

  /** Once installed, every own table has every other advertising mesh and, where some mesh of the node
      advertises it, the default route, all at one hop, and never its own mesh. */
  lemma AllSpread(meshes: Meshes, self: Key, routeMaps: map<MeshId, Table>)
    requires Separate(meshes, self)
    requires forall m :: m in meshes ==> InstalledLeaks(Confs(meshes), routeMaps, m, TableAt(meshes[m].Value(), self))
    requires forall m :: m in meshes && meshes[m].advertiseRoutes && meshes[m].advertiseDefaultRoute ==>
      m in routeMaps && DefaultRoute in routeMaps[m] && Hops(routeMaps[m][DefaultRoute]) <= 1
    requires forall m :: m in meshes && meshes[m].advertiseRoutes ==> m in routeMaps && TablePaths(routeMaps[m]) && Keyed(routeMaps[m])
    ensures forall n, m :: n in meshes && m in meshes && meshes[n].advertiseRoutes && meshes[n].advertiseDefaultRoute ==>
      DefaultRoute in TableAt(meshes[m].Value(), self) && Hops(TableAt(meshes[m].Value(), self)[DefaultRoute]) == 1
    ensures forall n, m :: n in meshes && m in meshes && meshes[n].advertiseRoutes && n != m ==>
      MeshPrefix(n) in TableAt(meshes[m].Value(), self) && Hops(TableAt(meshes[m].Value(), self)[MeshPrefix(n)]) == 1
    ensures forall m :: m in meshes ==> MeshPrefix(m) !in TableAt(meshes[m].Value(), self)
  {
    hide InstalledLeaks;
    forall m | m in meshes ensures MeshPrefix(m) !in TableAt(meshes[m].Value(), self) {
      OwnPrefixStaysOut(Confs(meshes), routeMaps, m, TableAt(meshes[m].Value(), self));
    }
    forall n, m | n in meshes && m in meshes && meshes[n].advertiseRoutes && n != m
      ensures MeshPrefix(n) in TableAt(meshes[m].Value(), self) && Hops(TableAt(meshes[m].Value(), self)[MeshPrefix(n)]) == 1
    {
      PrefixSpreads(Confs(meshes), routeMaps, n, m, TableAt(meshes[m].Value(), self));
    }
    forall n, m | n in meshes && m in meshes && meshes[n].advertiseRoutes && meshes[n].advertiseDefaultRoute
      ensures DefaultRoute in TableAt(meshes[m].Value(), self) && Hops(TableAt(meshes[m].Value(), self)[DefaultRoute]) == 1
    {
      DefaultSpreads(Confs(meshes), routeMaps, n, m, TableAt(meshes[m].Value(), self));
    }
  }

  lemma AllInstalled(stores: map<MeshId, Store<MeshNode>>, meshes: Meshes, self: Key, routeMaps: map<MeshId, Table>)
    requires Separate(meshes, self) && AllFinished(stores, meshes, self, meshes.Keys, routeMaps)
    ensures forall m :: m in meshes ==>
      Contains(stores[m], self) && InstalledLeaks(Confs(meshes), routeMaps, m, TableAt(meshes[m].Value(), self))
  {
    hide Kept, Defaulted, InstalledLeaks;
    forall m | m in meshes
      ensures Contains(stores[m], self) && InstalledLeaks(Confs(meshes), routeMaps, m, TableAt(meshes[m].Value(), self))
    {
      assert Finished(stores[m], meshes[m], self, true, Confs(meshes), routeMaps);
    }
  }

  /** The second loop. */
  method FinishAll(meshes: Meshes, self: Key, ghost stores: map<MeshId, Store<MeshNode>>,
                   ghost routeMaps: map<MeshId, Table>, routes: map<MeshId, seq<Route>>, now: nat)
    returns (ok: bool, ghost done: set<MeshId>)
    requires Separate(meshes, self) && AllFinished(stores, meshes, self, {}, routeMaps)
    requires Exact(Confs(meshes), routeMaps, meshes.Keys, routes)
    modifies Footprint(meshes)
    ensures AllFinished(stores, meshes, self, done, routeMaps)
    ensures ok ==> done == meshes.Keys
    ensures !ok ==> exists m :: m in meshes && !Contains(stores[m], self)
  {
    hide AllFinished, Exact, Separate;
    var todo := meshes.Keys;
    done := {};
    while todo != {}
      invariant todo <= meshes.Keys && done == meshes.Keys - todo
      invariant AllFinished(stores, meshes, self, done, routeMaps)
      decreases |todo|
    {
      var m1 :| m1 in todo;
      todo := todo - {m1};
      FootprintHas(meshes, m1);
      var finished := Finish(m1, meshes, self, stores, done, routeMaps, routes, now);
      if !finished {
        return false, done;
      }
      done := done + {m1};
    }
    return true, done;
  }

  class RouteManager {
    const publicKey: Key
    var meshes: Meshes

    constructor (publicKey: Key, meshes: Meshes)
      ensures this.publicKey == publicKey && this.meshes == meshes
    {
      this.publicKey := publicKey;
      this.meshes := meshes;
    }

    /** Fails exactly when some mesh lacks this node. On success each of the node's tables holds exactly the
        routes computed from the least offers its contactable peers make in every advertising mesh, among
        them every other advertising mesh and any default route at one hop. In every case it is an update
        the route-leaking world allows. */
    method UpdateRoutes(now: nat) returns (ok: bool, ghost peersOf: map<MeshId, seq<Key>>, ghost routeMaps: map<MeshId, Table>)
      requires this !in Footprint(meshes)
      requires Separate(meshes, publicKey) && forall m :: m in meshes ==> Ready(meshes[m])
      modifies Footprint(meshes)
      ensures meshes == old(meshes) && AllKept(old(Stores(meshes)), Stores(meshes), publicKey)
      ensures ok <==> forall m :: m in meshes ==> old(Contains(meshes[m].Value(), publicKey))
      ensures forall m :: m in meshes ==> Ready(meshes[m])
      ensures ok ==> forall m :: m in meshes ==>
        InstalledLeaks(Confs(meshes), routeMaps, m, TableAt(meshes[m].Value(), publicKey))
      ensures ok ==> MapsOk(Views(old(Stores(meshes))), publicKey, Confs(meshes), peersOf, routeMaps)
      ensures ok ==> forall n, m :: n in meshes && m in meshes && meshes[n].advertiseRoutes && meshes[n].advertiseDefaultRoute ==>
        DefaultRoute in TableAt(meshes[m].Value(), publicKey) && Hops(TableAt(meshes[m].Value(), publicKey)[DefaultRoute]) == 1
      ensures ok ==> forall n, m :: n in meshes && m in meshes && meshes[n].advertiseRoutes && n != m ==>
        MeshPrefix(n) in TableAt(meshes[m].Value(), publicKey) && Hops(TableAt(meshes[m].Value(), publicKey)[MeshPrefix(n)]) == 1
      ensures ok ==> forall m :: m in meshes ==> MeshPrefix(m) !in TableAt(meshes[m].Value(), publicKey)
      ensures ok ==> PeersAsked(old(Stores(meshes)), Confs(meshes), publicKey, peersOf)
      ensures UpdateAllowed(Views(old(Stores(meshes))), publicKey, Confs(meshes), peersOf, routeMaps,
                            OwnTables(Stores(meshes), publicKey))
    {
      var meshes := this.meshes;
      ghost var stores := Stores(meshes);
      StartPassed(meshes, publicKey);
      hide AllPassed, AllFinished, Exact, MapsOk, UpdateAllowed, AllKept, Ready, Separate, InstalledLeaks, PeersAsked, TablePaths, Keyed;
      var computed, foundPeers, foundRoutes := Compute(meshes, publicKey, stores, now);
      peersOf, routeMaps := foundPeers, foundRoutes;
      if computed == None {
        ghost var done :| AllPassed(stores, meshes, publicKey, done, peersOf, routeMaps);
        PassedFinished(stores, meshes, publicKey, done, peersOf, routeMaps);
        FinishedAllowed(stores, meshes, publicKey, {}, peersOf, routeMaps);
        ReadyAgain(stores, meshes, publicKey, {}, routeMaps);
        return false, peersOf, routeMaps;
      }
      PassedFinished(stores, meshes, publicKey, meshes.Keys, peersOf, routeMaps);
      MapsFound(stores, meshes, publicKey, peersOf, routeMaps);
      PeersFound(stores, meshes, publicKey, peersOf, routeMaps);
      DefaultsFound(stores, meshes, publicKey, peersOf, routeMaps);
      ghost var done;
      ok, done := FinishAll(meshes, publicKey, stores, routeMaps, computed.value, now);
      FinishedAllowed(stores, meshes, publicKey, done, peersOf, routeMaps);
      ReadyAgain(stores, meshes, publicKey, done, routeMaps);
      if ok {
        AllInstalled(stores, meshes, publicKey, routeMaps);
        AllSpread(meshes, publicKey, routeMaps);
      }
    }
  }
}
