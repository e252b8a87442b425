/** Routes whose origin is gone: an update replaces a node's own tables, but computes them from each other. */
module Withdrawal {
  import opened NatMaps
  import opened RouteTables
  import opened RouteLeaking

  /** An update that installs the computed routes in every mesh of the node. */
  ghost predicate Installs(w: World, u: Action) {
    && u.Update? && Enabled(w, u)
    && MapsOk(ViewsAt(w, u.x), u.x, u.confs, u.peersOf, u.routeMaps)
    && forall m :: m in u.confs ==> InstalledLeaks(u.confs, u.routeMaps, m, u.tables[m])
  }

  /** What node x advertises into mesh m. */
  ghost function OwnTable(w: World, x: Key, m: MeshId): Table {
    if (x, m) in w.views then TableIn(w.views[(x, m)], x) else map[]
  }

  predicate OneHop(t: Table, c: MeshId) {
    MeshPrefix(c) in t && Hops(t[MeshPrefix(c)]) == 1
  }

  lemma OwnAfter(w: World, u: Action, m: MeshId)
    requires Installs(w, u) && m in u.confs
    ensures OwnTable(Apply(w, u), u.x, m) == u.tables[m]
  {
    assert m in ViewsAt(w, u.x);
  }

  /** An advertising mesh is advertised into every other mesh of the node at one hop. */
  lemma NeighbourAdvertised(w: World, u: Action, c: MeshId, m: MeshId)
    requires Inv(w) && Installs(w, u) && c in u.confs && u.confs[c].advertise && m in u.confs && m != c
    ensures OneHop(OwnTable(Apply(w, u), u.x, m), c)
  {
    OwnAfter(w, u, m);
    hide Inv, OwnTable, MapsOk, UpdateAllowed;
    var r := Route(MeshPrefix(c), [c]);
    assert Candidate(u.routeMaps, c, r) && Passes(m, r);
    assert Leaked(u.confs, u.routeMaps, u.confs.Keys, m, r);
    assert Leaked(u.confs, u.routeMaps, u.confs.Keys, m, u.tables[m][MeshPrefix(c)]);
  }

  /** What is found in mesh m for a destination other than the default route: it is there exactly when the own
      table or another peer's has it, and no further away than in the own table. */
  lemma Found(w: World, u: Action, m: MeshId, c: MeshId)
    requires Inv(w) && Installs(w, u) && m in u.confs && u.confs[m].advertise
    ensures
      var d, own := MeshPrefix(c), OwnTable(w, u.x, m);
      && m in u.routeMaps && m in u.peersOf
      && (d in u.routeMaps[m] <==>
           d in own || exists p :: p in u.peersOf[m] && p != u.x && d in TableIn(w.views[(u.x, m)], p))
      && (d in u.routeMaps[m] ==> u.routeMaps[m][d].dest == d && u.routeMaps[m][d].path != [])
      && (d in u.routeMaps[m] && d in own ==> Hops(u.routeMaps[m][d]) <= Hops(own[d]))
      && (d in u.routeMaps[m] && (forall p :: p in u.peersOf[m] && p != u.x ==> d !in TableIn(w.views[(u.x, m)], p)) ==>
           u.routeMaps[m][d] == own[d])
  {
    hide Inv, InstalledLeaks;
    var d, view := MeshPrefix(c), ViewsAt(w, u.x)[m];
    assert view == w.views[(u.x, m)] && ViewOk(w.meshes, m, view) by { ViewIsOk(w, u.x, m); }
    var own :| ReadWith(view, u.x, m, u.confs[m], u.peersOf[m], u.routeMaps[m], own);
    assert (d in own <==> d in TableIn(view, u.x)) && (d in own ==> own[d] == TableIn(view, u.x)[d]);
    FoundIn(w.meshes, m, view, u.x, own, u.peersOf[m], u.routeMaps[m], d);
  }

  lemma ViewIsOk(w: World, x: Key, m: MeshId)
    requires Inv(w) && m in ViewsAt(w, x)
    ensures ViewOk(w.meshes, m, w.views[(x, m)])
  {}

  lemma FoundKeyed(w: World, u: Action, n: MeshId, e: Dest)
    requires Installs(w, u) && n in u.confs && u.confs[n].advertise && n in u.routeMaps && e in u.routeMaps[n]
    ensures u.routeMaps[n][e].dest == e
  {
    hide InstalledLeaks;
    var view := ViewsAt(w, u.x)[n];
    var own :| ReadWith(view, u.x, n, u.confs[n], u.peersOf[n], u.routeMaps[n], own);
  }

  lemma FoundIn(ms: set<MeshId>, m: MeshId, view: Tables, x: Key, own: Table, peers: seq<Key>, found: Table, d: Dest)
    requires ViewOk(ms, m, view) && LeastOffers(view[x := own], x, m, peers, found)
    requires d in own ==> own[d].dest == d && own[d].path != []
    ensures d in found <==> d in own || exists p :: p in peers && p != x && d in TableIn(view, p)
    ensures d in found ==> found[d].dest == d && found[d].path != []
    ensures d in found && d in own ==> Hops(found[d]) <= Hops(own[d])
    ensures d in found && (forall p :: p in peers && p != x ==> d !in TableIn(view, p)) ==> d in own && found[d] == own[d]
  {
    var ts := view[x := own];
    if d in own {
      assert Offered(ts, x, m, own[d], peers);
    }
    forall p | p in peers && p != x && d in TableIn(view, p) ensures d in found {
      var r := Route(d, TableIn(view, p)[d].path + [m]);
      assert OfferedBy(ts, p, m, r) && Offered(ts, x, m, r, peers);
    }
    if d in found {
      assert Offered(ts, x, m, found[d], peers);
    }
  }

  /** A node that bridges a and b keeps advertising a mesh it has left, at one hop and in both, whatever the
      other nodes say: each of its tables is an offer for the other, and a path of one hop passes every
      filter. So no update ever withdraws it. */
  lemma OrphanStays(w: World, u: Action, a: MeshId, b: MeshId, c: MeshId)
    requires Inv(w) && Installs(w, u) && a in u.confs && b in u.confs && a != b
    requires u.confs[a].advertise && u.confs[b].advertise && c != a && c != b
    requires OneHop(OwnTable(w, u.x, a), c) && OneHop(OwnTable(w, u.x, b), c)
    ensures
      var w' := Apply(w, u);
      OneHop(OwnTable(w', u.x, a), c) && OneHop(OwnTable(w', u.x, b), c)
  {
    hide Inv, Installs;
    OrphanCrosses(w, u, a, b, c);
    OrphanCrosses(w, u, b, a, c);
  }

  lemma OrphanCrosses(w: World, u: Action, a: MeshId, b: MeshId, c: MeshId)
    requires Inv(w) && Installs(w, u) && a in u.confs && b in u.confs && a != b
    requires u.confs[a].advertise && c != b && OneHop(OwnTable(w, u.x, a), c)
    ensures OneHop(OwnTable(Apply(w, u), u.x, b), c)
  {
    hide Inv;
    Found(w, u, a, c);
    OwnAfter(w, u, b);
    var d := MeshPrefix(c);
    var r := u.routeMaps[a][d];
    assert Candidate(u.routeMaps, a, r) && Passes(b, r);
    assert Leaked(u.confs, u.routeMaps, u.confs.Keys, b, r);
    assert Leaked(u.confs, u.routeMaps, u.confs.Keys, b, u.tables[b][d]);
  }

  /** The routes found in mesh n lead to c around m. */
  predicate LeadsAround(found: map<MeshId, Table>, n: MeshId, m: MeshId, c: MeshId) {
    n in found && MeshPrefix(c) in found[n] &&
    var path := found[n][MeshPrefix(c)].path;
    path != [] && m !in path[1..]
  }

  /** Suppose the node has left c, or does not advertise it. An update then keeps c in mesh m exactly when the routes found in another
      advertising mesh lead to c around m. */
  lemma KeptIff(w: World, u: Action, m: MeshId, c: MeshId)
    requires Inv(w) && Installs(w, u) && m in u.confs && c != m && (c !in u.confs || !u.confs[c].advertise)
    ensures MeshPrefix(c) in OwnTable(Apply(w, u), u.x, m) <==>
      exists n :: n in u.confs && u.confs[n].advertise && n != m && LeadsAround(u.routeMaps, n, m, c)
  {
    OwnAfter(w, u, m);
    forall n, e | n in u.confs && u.confs[n].advertise && n in u.routeMaps && e in u.routeMaps[n]
      ensures u.routeMaps[n][e].dest == e
    {
      FoundKeyed(w, u, n, e);
    }
    assert InstalledLeaks(u.confs, u.routeMaps, m, u.tables[m]);
    hide Inv, Installs, OwnTable;
    LeaksAround(u.confs, u.routeMaps, m, c, u.tables[m]);
  }

  /** The routes found in mesh n lead to d around m. */
  predicate LeadsTo(found: map<MeshId, Table>, n: MeshId, m: MeshId, d: Dest) {
    n in found && d in found[n] && found[n][d].path != [] && m !in found[n][d].path[1..]
  }

  /** Every destination an update installs for mesh m: the default route if m advertises one, every other
      advertising mesh, and what is found in another advertising mesh and leads around m; never m itself. */
  lemma InstalledIff(confs: map<MeshId, MeshConf>, found: map<MeshId, Table>, m: MeshId, t: Table, d: Dest)
    requires InstalledLeaks(confs, found, m, t) && m in confs
    requires forall n, e :: n in confs && confs[n].advertise && n in found && e in found[n] ==> found[n][e].dest == e
    ensures MeshPrefix(m) !in t
    ensures d != MeshPrefix(m) ==> (d in t <==>
      || (d == DefaultRoute && confs[m].advertise && confs[m].defaultRoute)
      || exists n :: n in confs && confs[n].advertise && n != m && (d == MeshPrefix(n) || LeadsTo(found, n, m, d)))
  {
    assert forall r :: Leaked(confs, found, confs.Keys, m, r) ==> r.dest != MeshPrefix(m);
    if d in t {
      var r := t[d];
      assert Leaked(confs, found, confs.Keys, m, r) && r.dest == d;
      if r != Route(DefaultRoute, [m]) {
        var n :| n in confs && confs[n].advertise && n != m && Candidate(found, n, r) && Passes(m, r);
        assert d == MeshPrefix(n) || LeadsTo(found, n, m, d);
      }
    }
    if d == DefaultRoute && confs[m].advertise && confs[m].defaultRoute {
      assert Leaked(confs, found, confs.Keys, m, Route(DefaultRoute, [m]));
    }
    if n :| d != MeshPrefix(m) && n in confs && confs[n].advertise && n != m && (d == MeshPrefix(n) || LeadsTo(found, n, m, d)) {
      var r := if d == MeshPrefix(n) then Route(d, [n]) else found[n][d];
      assert Candidate(found, n, r) && Passes(m, r);
      assert Leaked(confs, found, confs.Keys, m, r);
    }
  }

  lemma LeaksAround(confs: map<MeshId, MeshConf>, found: map<MeshId, Table>, m: MeshId, c: MeshId, t: Table)
    requires InstalledLeaks(confs, found, m, t) && m in confs && c != m && (c !in confs || !confs[c].advertise)
    requires forall n, e :: n in confs && confs[n].advertise && n in found && e in found[n] ==> found[n][e].dest == e
    ensures MeshPrefix(c) in t <==> exists n :: n in confs && confs[n].advertise && n != m && LeadsAround(found, n, m, c)
  {
    hide InstalledLeaks;
    InstalledIff(confs, found, m, t, MeshPrefix(c));
    forall n ensures LeadsAround(found, n, m, c) <==> LeadsTo(found, n, m, MeshPrefix(c)) {}
  }

  /** So where no other peer, in any of its meshes, offers c, an update withdraws c from mesh m exactly when no
      table of the node for another advertising mesh leads to c around m. */
  lemma WithdrawnIff(w: World, u: Action, m: MeshId, c: MeshId)
    requires Inv(w) && Installs(w, u) && m in u.confs && c !in u.confs
    requires forall n, p :: n in u.confs && u.confs[n].advertise && p in u.peersOf[n] && p != u.x ==>
      MeshPrefix(c) !in TableIn(w.views[(u.x, n)], p)
    ensures MeshPrefix(c) in OwnTable(Apply(w, u), u.x, m) <==>
      exists n :: n in u.confs && u.confs[n].advertise && n != m && MeshPrefix(c) in OwnTable(w, u.x, n)
                  && m !in OwnTable(w, u.x, n)[MeshPrefix(c)].path[1..]
  {
    hide Inv;
    KeptIff(w, u, m, c);
    var d := MeshPrefix(c);
    forall n | n in u.confs && u.confs[n].advertise
      ensures n in u.routeMaps && (d in u.routeMaps[n] <==> d in OwnTable(w, u.x, n))
      ensures d in u.routeMaps[n] ==> u.routeMaps[n][d] == OwnTable(w, u.x, n)[d] && u.routeMaps[n][d].path != []
    {
      Found(w, u, n, c);
    }
    forall n | n in u.confs && u.confs[n].advertise && d in OwnTable(w, u.x, n)
      ensures LeadsAround(u.routeMaps, n, m, c) <==> m !in OwnTable(w, u.x, n)[d].path[1..]
    {}
  }

  // ---- A run that gets there ----

  /** Every mesh of the set but m, advertised into m at one hop. */
  function Neighbours(ms: set<MeshId>, m: MeshId): Table {
    map d | d in (set n | n in ms && n != m :: MeshPrefix(n)) :: Route(d, [d.mesh])
  }

  function Advertising(ms: set<MeshId>): map<MeshId, MeshConf> {
    map m | m in ms :: MeshConf(true, false)
  }

  /** Node 1 alone: it hears no other peer, and finds its own tables. */
  ghost predicate Alone(w: World, ms: set<MeshId>, tables: map<MeshId, Table>) {
    && ms <= w.meshes && tables.Keys == ms
    && forall m :: m in ms ==> (1, m) in w.views && w.views[(1, m)] == map[1 := tables[m]] && Keyed(tables[m])
  }

  /** An update by node 1, alone, that keeps the meshes `ms` and installs these tables. */
  ghost function LoneUpdate(ms: set<MeshId>, found: map<MeshId, Table>, tables: map<MeshId, Table>): Action {
    Update(1, Advertising(ms), map m | m in ms :: [], found, tables)
  }

  lemma LoneFinds(w: World, ms: set<MeshId>, found: map<MeshId, Table>)
    requires Alone(w, ms, found)
    ensures MapsOk(ViewsAt(w, 1), 1, Advertising(ms), map m | m in ms :: [], found)
  {
    var confs, peersOf: map<MeshId, seq<Key>> := Advertising(ms), map m | m in ms :: [];
    forall m | m in confs ensures exists own :: ReadWith(ViewsAt(w, 1)[m], 1, m, confs[m], peersOf[m], found[m], own) {
      var view := ViewsAt(w, 1)[m];
      assert TableIn(view, 1) == found[m] && view[1 := found[m]] == view;
      OffersNone(view, 1, m);
      assert ReadWith(view, 1, m, confs[m], peersOf[m], found[m], found[m]);
    }
  }

  lemma LoneInstalls(w: World, ms: set<MeshId>, found: map<MeshId, Table>, tables: map<MeshId, Table>)
    requires Alone(w, ms, found) && tables.Keys == ms
    requires forall m :: m in ms ==> InstalledLeaks(Advertising(ms), found, m, tables[m])
    ensures Installs(w, LoneUpdate(ms, found, tables))
  {
    hide InstalledLeaks, MapsOk;
    LoneFinds(w, ms, found);
  }

  /** The first update of a node with nothing installed. */
  lemma FirstLeaks(ms: set<MeshId>, found: map<MeshId, Table>, m: MeshId)
    requires m in ms && found.Keys == ms && forall n :: n in ms ==> found[n] == map[]
    ensures InstalledLeaks(Advertising(ms), found, m, Neighbours(ms, m))
  {
    var confs, t := Advertising(ms), Neighbours(ms, m);
    forall d | d in t ensures t[d].dest == d && Leaked(confs, found, confs.Keys, m, t[d]) {
      assert Candidate(found, d.mesh, t[d]) && Passes(m, t[d]);
    }
  }

  /** The next update, after node 1 has left c: the tables for a and b stay as they are. */
  lemma LeftLeaks(a: MeshId, b: MeshId, c: MeshId, found: map<MeshId, Table>)
    requires a != b && a != c && b != c
    requires found == map[a := Neighbours({a, b, c}, a), b := Neighbours({a, b, c}, b)]
    ensures InstalledLeaks(Advertising({a, b}), found, a, found[a])
  {
    var confs, t := Advertising({a, b}), found[a];
    assert t.Keys == {MeshPrefix(b), MeshPrefix(c)};
    forall d | d in t ensures t[d].dest == d && Leaked(confs, found, confs.Keys, a, t[d]) {
      assert Candidate(found, b, t[d]) && Passes(a, t[d]);
    }
    forall r | Leaked(confs, found, confs.Keys, a, r) ensures r.dest in t && Hops(t[r.dest]) <= Hops(r) {
      assert Candidate(found, b, r) && Passes(a, r);
      assert found[b].Keys == {MeshPrefix(a), MeshPrefix(c)};
    }
  }

  lemma Joins(ws: seq<World>, m: MeshId) returns (longer: seq<World>)
    requires IsRun(ws) && (1, m) !in ws[|ws| - 1].views
    ensures IsRun(longer) && |longer| == |ws| + 1 && longer[..|ws|] == ws
    ensures longer[|ws|].views == ws[|ws| - 1].views[(1, m) := map[1 := map[]]]
    ensures longer[|ws|].meshes == ws[|ws| - 1].meshes + {m}
  {
    var w, j := ws[|ws| - 1], JoinMesh(1, m);
    longer := Extended(ws, j);
  }

  lemma Extended(ws: seq<World>, a: Action) returns (longer: seq<World>)
    requires IsRun(ws) && Enabled(ws[|ws| - 1], a)
    ensures IsRun(longer) && |longer| == |ws| + 1 && longer[..|ws|] == ws && longer[|ws|] == Apply(ws[|ws| - 1], a)
  {
    hide Enabled, Apply;
    longer := ws + [Apply(ws[|ws| - 1], a)];
    assert Step(ws[|ws| - 1], longer[|ws|]);
    forall t | 0 <= t < |longer| - 1 ensures Step(longer[t], longer[t + 1]) {
      assert t < |ws| - 1 ==> Step(ws[t], ws[t + 1]);
    }
  }

  lemma StartOfRun()
    ensures IsRun([World(map[], {}, {})])
  {}

  function Tabled(ms: set<MeshId>, of: set<MeshId>): map<MeshId, Table> {
    map m | m in ms :: Neighbours(of, m)
  }

  function Untabled(ms: set<MeshId>): map<MeshId, Table> {
    map m | m in ms :: map[]
  }

  lemma JoinsAll(a: MeshId, b: MeshId, c: MeshId) returns (ws: seq<World>)
    requires a != b && a != c && b != c
    ensures IsRun(ws) && ws != [] && Alone(ws[|ws| - 1], {a, b, c}, Untabled({a, b, c}))
  {
    StartOfRun();
    ws := [World(map[], {}, {})];
    hide IsRun;
    ws := Joins(ws, a);
    ws := Joins(ws, b);
    ws := Joins(ws, c);
  }

  lemma UpdatesFirst(before: seq<World>, a: MeshId, b: MeshId, c: MeshId) returns (ws: seq<World>)
    requires IsRun(before) && before != [] && Alone(before[|before| - 1], {a, b, c}, Untabled({a, b, c}))
    ensures IsRun(ws) && ws != [] && Alone(ws[|ws| - 1], {a, b}, Tabled({a, b}, {a, b, c}))
  {
    hide IsRun, Installs, Apply, InstalledLeaks, Neighbours;
    var ms := {a, b, c};
    var w := before[|before| - 1];
    forall m | m in ms ensures InstalledLeaks(Advertising(ms), Untabled(ms), m, Tabled(ms, ms)[m]) {
      FirstLeaks(ms, Untabled(ms), m);
    }
    LoneInstalls(w, ms, Untabled(ms), Tabled(ms, ms));
    ws := Updated(before, LoneUpdate(ms, Untabled(ms), Tabled(ms, ms)));
    AfterLone(w, ms, Untabled(ms), Tabled(ms, ms));
    forall m ensures Keyed(Neighbours(ms, m)) {
      NeighboursHave(ms, m);
    }
  }

  lemma NeighboursHave(ms: set<MeshId>, m: MeshId)
    ensures Keyed(Neighbours(ms, m))
    ensures forall n :: n in ms && n != m ==> OneHop(Neighbours(ms, m), n)
  {}

  lemma LeavesOne(w: World, a: MeshId, b: MeshId, c: MeshId)
    requires a != b && a != c && b != c && Alone(w, {a, b}, Tabled({a, b}, {a, b, c}))
    ensures
      var kept := Tabled({a, b}, {a, b, c});
      Installs(w, LoneUpdate({a, b}, kept, kept))
  {
    hide Installs, InstalledLeaks, Neighbours, Alone;
    var ms, kept := {a, b}, Tabled({a, b}, {a, b, c});
    assert {b, a} == ms && {b, a, c} == {a, b, c};
    assert kept == map[a := Neighbours({a, b, c}, a), b := Neighbours({a, b, c}, b)];
    LeftLeaks(a, b, c, kept);
    LeftLeaks(b, a, c, kept);
    LoneInstalls(w, ms, kept, kept);
  }

  /** Node 1 joins a, b and c, installs its routes, and leaves c: its next update is one that `OrphanStays` is
      about, and after it c is still at one hop in both tables. */
  lemma OrphanReached(a: MeshId, b: MeshId, c: MeshId) returns (ws: seq<World>, u: Action)
    requires a != b && a != c && b != c
    ensures IsRun(ws) && ws != [] && Installs(ws[|ws| - 1], u) && u.x == 1 && u.confs.Keys == {a, b}
    ensures
      var w := ws[|ws| - 1];
      && OneHop(OwnTable(w, 1, a), c) && OneHop(OwnTable(w, 1, b), c)
      && OneHop(OwnTable(Apply(w, u), 1, a), c) && OneHop(OwnTable(Apply(w, u), 1, b), c)
  {
    hide IsRun, Installs, Apply, Neighbours, OneHop;
    ws := JoinsAll(a, b, c);
    ws := UpdatesFirst(ws, a, b, c);
    var w, kept := ws[|ws| - 1], Tabled({a, b}, {a, b, c});
    LeavesOne(w, a, b, c);
    u := LoneUpdate({a, b}, kept, kept);
    NeighboursHave({a, b, c}, a);
    NeighboursHave({a, b, c}, b);
    assert OwnTable(w, 1, a) == kept[a] && OwnTable(w, 1, b) == kept[b];
    RunInv(ws, |ws| - 1);
    OrphanStays(w, u, a, b, c);
  }

  lemma Updated(ws: seq<World>, u: Action) returns (longer: seq<World>)
    requires IsRun(ws) && Installs(ws[|ws| - 1], u)
    ensures IsRun(longer) && |longer| == |ws| + 1 && longer[|ws|] == Apply(ws[|ws| - 1], u)
  {
    longer := Extended(ws, u);
  }

  lemma AfterLone(w: World, ms: set<MeshId>, found: map<MeshId, Table>, tables: map<MeshId, Table>)
    requires Alone(w, ms, found) && Installs(w, LoneUpdate(ms, found, tables))
    ensures
      var w' := Apply(w, LoneUpdate(ms, found, tables));
      && w'.meshes == w.meshes && tables.Keys == ms
      && forall m :: m in ms ==> (1, m) in w'.views && w'.views[(1, m)] == map[1 := tables[m]]
  {}
}
