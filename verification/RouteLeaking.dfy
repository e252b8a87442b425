/** Leaking routes between meshes: what one UpdateRoutes may do, and loop freedom over all runs of any
    number of nodes in any number of meshes. */
module RouteLeaking {
  import opened NatMaps
  import opened RouteTables

  /** AdvertiseRoutes and AdvertiseDefaultRoute of a mesh at one node. */
  datatype MeshConf = MeshConf(advertise: bool, defaultRoute: bool)

  // ---- One update, over the meshes of one node ----

  /** What mesh m1 offers to every other mesh: itself, and the routes found in it. */
  ghost predicate Candidate(routeMaps: map<MeshId, Table>, m1: MeshId, r: Route) {
    || r == Route(MeshPrefix(m1), [m1])
    || (m1 in routeMaps && r.dest in routeMaps[m1] && r == routeMaps[m1][r.dest])
  }

  /** The filter on what enters mesh m. Its slice `path[1:]` needs a non-empty path. */
  predicate Passes(m: MeshId, r: Route)
    requires r.path != []
  {
    r.dest != MeshPrefix(m) && m !in r.path[1..]
  }

  /** The routes computed for mesh m once the meshes in `done` have been leaked from. */
  ghost predicate Leaked(confs: map<MeshId, MeshConf>, routeMaps: map<MeshId, Table>, done: set<MeshId>, m: MeshId, r: Route) {
    && r.path != []
    && ((m in done && m in confs && confs[m].advertise && confs[m].defaultRoute && r == Route(DefaultRoute, [m]))
        || (exists m1 :: m1 in done && m1 in confs && confs[m1].advertise && m1 != m
                         && Candidate(routeMaps, m1, r) && Passes(m, r)))
  }

  /** The table holds exactly the destinations computed for m, each with a computed route of least hops. */
  ghost predicate InstalledLeaks(confs: map<MeshId, MeshConf>, routeMaps: map<MeshId, Table>, m: MeshId, t: Table) {
    && (forall d :: d in t ==> t[d].dest == d && Leaked(confs, routeMaps, confs.Keys, m, t[d]))
    && (forall r :: Leaked(confs, routeMaps, confs.Keys, m, r) ==> r.dest in t && Hops(t[r.dest]) <= Hops(r))
  }

  /** The node's own table before the final installation: as it was, or with the default route added. */
  ghost predicate Defaulted(t0: Table, m: MeshId, conf: MeshConf, t: Table) {
    t == t0 || (conf.advertise && conf.defaultRoute && t == AddOne(t0, Route(DefaultRoute, [m])))
  }

  /** The route map holds the least offers of a mesh in which x's own table is `own`. */
  ghost predicate ReadWith(view: Tables, x: Key, m: MeshId, conf: MeshConf, peers: seq<Key>, routeMap: Table, own: Table) {
    Defaulted(TableIn(view, x), m, conf, own) && LeastOffers(view[x := own], x, m, peers, routeMap)
  }

  /** Every advertising mesh's route map holds the least offers found in that mesh. */
  ghost predicate MapsOk(views: map<MeshId, Tables>, x: Key, confs: map<MeshId, MeshConf>,
                         peersOf: map<MeshId, seq<Key>>, routeMaps: map<MeshId, Table>) {
    forall m :: m in confs && confs[m].advertise ==>
      && m in views && m in routeMaps && m in peersOf
      && exists own :: ReadWith(views[m], x, m, confs[m], peersOf[m], routeMaps[m], own)
  }

  /** What UpdateRoutes at x may leave as x's own tables: it may give up early with at most default routes
      added, or install the computed routes in some or all meshes. */
  ghost predicate UpdateAllowed(views: map<MeshId, Tables>, x: Key, confs: map<MeshId, MeshConf>,
                                peersOf: map<MeshId, seq<Key>>, routeMaps: map<MeshId, Table>, tables: map<MeshId, Table>) {
    && confs.Keys <= views.Keys && confs.Keys == tables.Keys
    && ((forall m :: m in confs ==> Defaulted(TableIn(views[m], x), m, confs[m], tables[m]))
        || (MapsOk(views, x, confs, peersOf, routeMaps)
            && forall m :: m in confs ==>
                 Defaulted(TableIn(views[m], x), m, confs[m], tables[m]) || InstalledLeaks(confs, routeMaps, m, tables[m])))
  }

  // ---- The world ----

  /** `views[(x, m)]` is what node x holds for mesh m. `adverts` are the tables ever advertised into each
      mesh; a replica may come to hold any of them at any time, which covers every order, loss, repetition
      and delay of synchronisation, and pruning and marking. */
  datatype World = World(views: map<(Key, MeshId), Tables>, adverts: set<(MeshId, Table)>, meshes: set<MeshId>)

  datatype Action =
    | JoinMesh(x: Key, m: MeshId)
    | Hear(x: Key, m: MeshId, heard: Tables)
    | Update(x: Key, confs: map<MeshId, MeshConf>, peersOf: map<MeshId, seq<Key>>,
             routeMaps: map<MeshId, Table>, tables: map<MeshId, Table>)

  ghost function ViewsAt(w: World, x: Key): map<MeshId, Tables> {
    map m | m in w.meshes && (x, m) in w.views :: w.views[(x, m)]
  }

  ghost predicate Enabled(w: World, a: Action) {
    match a
    case JoinMesh(x, m) => (x, m) !in w.views
    case Hear(x, m, heard) => (x, m) in w.views && forall k :: k in heard ==> (m, heard[k]) in w.adverts
    case Update(x, confs, peersOf, routeMaps, tables) =>
      UpdateAllowed(ViewsAt(w, x), x, confs, peersOf, routeMaps, tables)
  }

  ghost function Apply(w: World, a: Action): World
    requires Enabled(w, a)
  {
    match a
    case JoinMesh(x, m) =>
      var own: Tables := map[x := map[]];
      World(w.views[(x, m) := own], w.adverts + {(m, map[])}, w.meshes + {m})
    case Hear(x, m, heard) =>
      w.(views := w.views[(x, m) := heard])
    case Update(x, _, _, _, tables) =>
      w.(views := map xm | xm in w.views :: if xm.0 == x && xm.1 in tables then w.views[xm][x := tables[xm.1]] else w.views[xm],
         adverts := w.adverts + set m | m in tables :: (m, tables[m]))
  }

  ghost predicate Step(w: World, w': World) {
    exists a :: Enabled(w, a) && w' == Apply(w, a)
  }

  ghost predicate IsRun(ws: seq<World>) {
    ws != [] && ws[0] == World(map[], {}, {}) && forall t :: 0 <= t < |ws| - 1 ==> Step(ws[t], ws[t + 1])
  }

  // ---- Loop freedom ----

  predicate NoRepeats(p: seq<MeshId>) {
    forall i, j :: 0 <= i < j < |p| ==> p[i] != p[j]
  }

  /** A path that may have been looked up in some mesh: beyond its first hop it never repeats. */
  ghost predicate Simple(ms: set<MeshId>, r: Route) {
    r.path != [] && NoRepeats(r.path[1..]) && forall h :: h in r.path ==> h in ms
  }

  /** A route that may be advertised into mesh m. */
  ghost predicate LoopFree(ms: set<MeshId>, m: MeshId, r: Route) {
    Simple(ms, r) && m !in r.path[1..]
  }

  ghost predicate TableOk(ms: set<MeshId>, m: MeshId, t: Table) {
    forall d :: d in t ==> t[d].dest == d && LoopFree(ms, m, t[d])
  }

  ghost predicate ViewOk(ms: set<MeshId>, m: MeshId, ts: Tables) {
    forall k :: k in ts ==> TableOk(ms, m, ts[k])
  }

  ghost predicate Inv(w: World) {
    && (forall xm :: xm in w.views ==> xm.1 in w.meshes && ViewOk(w.meshes, xm.1, w.views[xm]))
    && (forall mt :: mt in w.adverts ==> mt.0 in w.meshes && TableOk(w.meshes, mt.0, mt.1))
  }

  lemma DefaultedOk(ms: set<MeshId>, m: MeshId, ts: Tables, x: Key, conf: MeshConf, t: Table)
    requires m in ms && ViewOk(ms, m, ts) && Defaulted(TableIn(ts, x), m, conf, t)
    ensures TableOk(ms, m, t)
  {}

  /** Appending the mesh a route was found in keeps the path simple, because the route could not have
      crossed that mesh before. */
  lemma OffersSimple(ms: set<MeshId>, m: MeshId, ts: Tables, x: Key, peers: seq<Key>, r: Route)
    requires m in ms && ViewOk(ms, m, ts) && Offered(ts, x, m, r, peers)
    ensures Simple(ms, r)
  {
    if !(r.dest in TableIn(ts, x) && r == TableIn(ts, x)[r.dest]) {
      var p :| p in peers && p != x && OfferedBy(ts, p, m, r);
      var path := TableIn(ts, p)[r.dest].path;
      assert LoopFree(ms, m, TableIn(ts, p)[r.dest]);
      assert r.path[1..] == path[1..] + [m];
    }
  }

  lemma ReadSimple(ms: set<MeshId>, m: MeshId, view: Tables, x: Key, conf: MeshConf, peers: seq<Key>,
                   routeMap: Table, own: Table, r: Route)
    requires m in ms && ViewOk(ms, m, view) && ReadWith(view, x, m, conf, peers, routeMap, own)
    requires r.dest in routeMap && r == routeMap[r.dest]
    ensures Simple(ms, r)
  {
    hide TableOk, Offered, Simple;
    DefaultedOk(ms, m, view, x, conf, own);
    OffersSimple(ms, m, view[x := own], x, peers, r);
  }

  lemma LeakedOk(w: World, x: Key, confs: map<MeshId, MeshConf>, peersOf: map<MeshId, seq<Key>>,
                 routeMaps: map<MeshId, Table>, m: MeshId, r: Route)
    requires Inv(w) && m in w.meshes && confs.Keys <= ViewsAt(w, x).Keys
    requires MapsOk(ViewsAt(w, x), x, confs, peersOf, routeMaps) && Leaked(confs, routeMaps, confs.Keys, m, r)
    ensures LoopFree(w.meshes, m, r)
  {
    if r != Route(DefaultRoute, [m]) {
      hide LeastOffers, Offered, ViewOk, ReadWith, Defaulted;
      var m1 :| m1 in confs && confs[m1].advertise && m1 != m && Candidate(routeMaps, m1, r) && Passes(m, r);
      assert m1 in ViewsAt(w, x) && ViewOk(w.meshes, m1, ViewsAt(w, x)[m1]);
      if r != Route(MeshPrefix(m1), [m1]) {
        var view := ViewsAt(w, x)[m1];
        var own :| ReadWith(view, x, m1, confs[m1], peersOf[m1], routeMaps[m1], own);
        ReadSimple(w.meshes, m1, view, x, confs[m1], peersOf[m1], routeMaps[m1], own, r);
      }
    }
  }

  lemma UpdateTablesOk(w: World, a: Action, m: MeshId)
    requires Inv(w) && a.Update? && Enabled(w, a) && m in a.tables
    ensures m in w.meshes && TableOk(w.meshes, m, a.tables[m])
  {
    var view := ViewsAt(w, a.x)[m];
    assert ViewOk(w.meshes, m, w.views[(a.x, m)]);
    if Defaulted(TableIn(view, a.x), m, a.confs[m], a.tables[m]) {
      DefaultedOk(w.meshes, m, view, a.x, a.confs[m], a.tables[m]);
    } else {
      forall d | d in a.tables[m] ensures LoopFree(w.meshes, m, a.tables[m][d]) {
        LeakedOk(w, a.x, a.confs, a.peersOf, a.routeMaps, m, a.tables[m][d]);
      }
    }
  }

  lemma MoreMeshes(ms: set<MeshId>, ms': set<MeshId>, m: MeshId, t: Table)
    requires ms <= ms' && TableOk(ms, m, t)
    ensures TableOk(ms', m, t)
  {
    forall d | d in t ensures LoopFree(ms', m, t[d]) {
      assert LoopFree(ms, m, t[d]);
    }
  }

  lemma JoinKeeps(w: World, x: Key, m: MeshId)
    requires Inv(w) && Enabled(w, JoinMesh(x, m))
    ensures Inv(Apply(w, JoinMesh(x, m)))
  {
    hide LoopFree;
    var w' := Apply(w, JoinMesh(x, m));
    forall xm | xm in w'.views ensures xm.1 in w'.meshes && ViewOk(w'.meshes, xm.1, w'.views[xm]) {
      if xm != (x, m) {
        forall k | k in w.views[xm] ensures TableOk(w'.meshes, xm.1, w.views[xm][k]) {
          MoreMeshes(w.meshes, w'.meshes, xm.1, w.views[xm][k]);
        }
      }
    }
    forall mt | mt in w'.adverts ensures mt.0 in w'.meshes && TableOk(w'.meshes, mt.0, mt.1) {
      if mt in w.adverts {
        MoreMeshes(w.meshes, w'.meshes, mt.0, mt.1);
      }
    }
  }

  lemma StepKeeps(w: World, a: Action)
    requires Inv(w) && Enabled(w, a)
    ensures Inv(Apply(w, a))
  {
    hide TableOk, UpdateAllowed;
    match a
    case JoinMesh(x, m) => JoinKeeps(w, x, m);
    case Hear(x, m, heard) =>
      forall k | k in heard ensures TableOk(w.meshes, m, heard[k]) {
        assert (m, heard[k]) in w.adverts;
      }
    case Update(x, confs, peersOf, routeMaps, tables) =>
      forall m | m in tables ensures m in w.meshes && TableOk(w.meshes, m, tables[m]) {
        UpdateTablesOk(w, a, m);
      }
  }

  lemma {:induction false} RunInv(ws: seq<World>, t: nat)
    requires IsRun(ws) && t < |ws|
    ensures Inv(ws[t])
  {
    hide Inv;
    if t == 0 {
      InvEmpty(ws[0]);
    } else {
      RunInv(ws, t - 1);
      assert Step(ws[t - 1], ws[t - 1 + 1]);
      var a :| Enabled(ws[t - 1], a) && ws[t] == Apply(ws[t - 1], a);
      StepKeeps(ws[t - 1], a);
    }
  }

  lemma InvEmpty(w: World)
    requires w.views == map[] && w.adverts == {}
    ensures Inv(w)
  {}

  /** Distinct meshes cannot outnumber the meshes there are. */
  lemma {:induction false} DistinctFit(p: seq<MeshId>, ms: set<MeshId>)
    requires NoRepeats(p) && forall h :: h in p ==> h in ms
    ensures |p| <= |ms|
  {
    if p != [] {
      var init, last := p[..|p| - 1], p[|p| - 1];
      assert p == init + [last];
      DistinctFit(init, ms - {last});
    }
  }

  /** In every reachable state, every route any node holds for mesh m has a non-empty path, so `path[1:]`
      never panics; past its first hop the path has no repeats and never crosses m; and its hops are at
      most the number of meshes, so no hop count grows without bound. */
  lemma LoopFreedom(ws: seq<World>, t: nat, x: Key, m: MeshId, k: Key, d: Dest)
    requires IsRun(ws) && t < |ws|
    requires (x, m) in ws[t].views && k in ws[t].views[(x, m)] && d in ws[t].views[(x, m)][k]
    ensures
      var r := ws[t].views[(x, m)][k][d];
      && r.path != [] && NoRepeats(r.path[1..]) && m !in r.path[1..]
      && Hops(r) <= |ws[t].meshes|
  {
    RunInv(ws, t);
    var r := ws[t].views[(x, m)][k][d];
    assert ViewOk(ws[t].meshes, m, ws[t].views[(x, m)]);
    assert LoopFree(ws[t].meshes, m, r);
    DistinctFit(r.path[1..], ws[t].meshes - {m});
  }
}
