/** Routes, a node's table of them, and the least-hop rules of pkg/crdt/datastore.go as values. */
module RouteTables {
  import opened NatMaps
  import opened Replica

  type MeshId = string

  /** The destinations the program advertises: ::/0, and the prefix of a mesh, which is taken to be an
      injective function of the mesh id. */
  datatype Dest = DefaultRoute | MeshPrefix(mesh: MeshId)

  datatype Route = Route(dest: Dest, path: seq<MeshId>)

  type Table = map<Dest, Route>

  datatype NodeType = Peer | Client

  datatype MeshNode = MeshNode(publicKey: Key, nodeType: NodeType, routes: Table)

  function Hops(r: Route): nat {
    |r.path|
  }

  predicate Keyed(t: Table) {
    forall d :: d in t ==> t[d].dest == d
  }

  // ---- Adding and withdrawing ----

  function AddOne(t: Table, r: Route): Table {
    if r.dest !in t || Hops(r) < Hops(t[r.dest]) then t[r.dest := r] else t
  }

  function AddAll(t: Table, rs: seq<Route>): Table {
    if rs == [] then t else AddOne(AddAll(t, rs[..|rs| - 1]), rs[|rs| - 1])
  }

  function Dests(rs: seq<Route>): set<Dest> {
    set r | r in rs :: r.dest
  }

  /** The table holds exactly the destinations of the routes, each with a member route of least hops. */
  ghost predicate Installed(t: Table, rs: seq<Route>) {
    && (forall d :: d in t ==> t[d].dest == d && t[d] in rs)
    && (forall r :: r in rs ==> r.dest in t && Hops(t[r.dest]) <= Hops(r))
  }

  /** What adding leaves: nothing but old entries and added routes, and least hops among all of them. */
  ghost predicate Least(t: Table, rs: seq<Route>, t': Table) {
    && Keyed(t')
    && (forall d :: d in t' ==> t'[d] in rs || (d in t && t'[d] == t[d]))
    && (forall d :: d in t ==> d in t' && Hops(t'[d]) <= Hops(t[d]))
    && (forall d :: d in t && Hops(t'[d]) == Hops(t[d]) ==> t'[d] == t[d])
    && (forall r :: r in rs ==> r.dest in t' && Hops(t'[r.dest]) <= Hops(r))
  }

  lemma LeastStep(t: Table, rs: seq<Route>, t': Table, r: Route)
    requires Least(t, rs, t')
    ensures Least(t, rs + [r], AddOne(t', r))
  {
    assert forall q :: q in rs + [r] <==> q in rs || q == r;
  }

  lemma {:induction false} AddAllLeast(t: Table, rs: seq<Route>)
    requires Keyed(t)
    ensures Least(t, rs, AddAll(t, rs))
  {
    if rs != [] {
      hide Least;
      var init, last := rs[..|rs| - 1], rs[|rs| - 1];
      AddAllLeast(t, init);
      LeastStep(t, init, AddAll(t, init), last);
      assert rs == init + [last];
    }
  }

  /** Routes that are no improvement change nothing. */
  lemma {:induction false} AddAllKeeps(t: Table, rs: seq<Route>)
    requires forall r :: r in rs ==> r.dest in t && Hops(t[r.dest]) <= Hops(r)
    ensures AddAll(t, rs) == t
  {
    if rs != [] {
      var init, last := rs[..|rs| - 1], rs[|rs| - 1];
      assert rs == init + [last];
      AddAllKeeps(t, init);
      assert last in rs;
    }
  }

  lemma AnyOf(rs: seq<Route>) returns (r: Route)
    requires rs != []
    ensures r in rs
  {
    r := rs[0];
  }

  lemma {:induction false} AddAllSnoc(t: Table, rs: seq<Route>, r: Route)
    ensures AddAll(t, rs + [r]) == AddOne(AddAll(t, rs), r)
  {
    assert (rs + [r])[..|rs|] == rs;
  }

  /** Once a route has changed the table, no later route restores it. */
  lemma ChangeStays(t: Table, rs: seq<Route>, r: Route)
    requires Keyed(t)
    ensures AddAll(t, rs + [r]) == t <==> AddAll(t, rs) == t && AddOne(AddAll(t, rs), r) == AddAll(t, rs)
  {
    AddAllSnoc(t, rs, r);
    AddAllLeast(t, rs);
  }

  /** Withdrawing every entry that is not among the routes and then adding the routes installs them. */
  lemma WithdrawThenAdd(t: Table, gone: seq<Route>, rs: seq<Route>)
    requires Keyed(t)
    requires forall r :: r in gone <==> r.dest in t && t[r.dest] == r && r !in rs
    ensures Installed(AddAll(t - Dests(gone), rs), rs)
    ensures Installed(t, rs) ==> gone == [] && AddAll(t, rs) == t
  {
    var kept := t - Dests(gone);
    forall d | d in kept ensures t[d] in rs {
      assert t[d].dest == d && d !in Dests(gone);
      assert t[d] !in gone;
    }
    AddAllLeast(kept, rs);
    if Installed(t, rs) {
      if gone != [] {
        var r := AnyOf(gone);
        assert false;
      }
      AddAllKeeps(t, rs);
    }
  }

  // ---- What a node may advertise onwards ----

  /** The tables of all nodes of a mesh, as one replica holds them. */
  type Tables = map<Key, Table>

  function TablesOf(s: Store<MeshNode>): Tables {
    map k | k in s.add :: s.add[k].contents.routes
  }

  function TableIn(ts: Tables, k: Key): Table {
    if k in ts then ts[k] else map[]
  }

  function TableAt(s: Store<MeshNode>, k: Key): Table {
    TableIn(TablesOf(s), k)
  }

  /** Every entry is stored under its own key, and every table under its own destinations. */
  ghost predicate WellKeyed(s: Store<MeshNode>) {
    forall k :: k in s.add ==> s.add[k].contents.publicKey == k && Keyed(s.add[k].contents.routes)
  }

  /** A contactable peer: present, of the peer type, and not marked unreachable here. */
  ghost predicate IsPeer(s: Store<MeshNode>, k: Key) {
    Contains(s, k) && s.add[k].contents.nodeType == Peer && !s.add[k].gravestone
  }

  /** The candidates for target's routes out of mesh m: its own as they are, and those of every other
      contactable peer with m appended. */
  ghost predicate Offered(ts: Tables, target: Key, m: MeshId, r: Route, peers: seq<Key>) {
    var own := TableIn(ts, target);
    || (r.dest in own && r == own[r.dest])
    || (exists p :: p in peers && p != target && OfferedBy(ts, p, m, r))
  }

  predicate OfferedBy(ts: Tables, p: Key, m: MeshId, r: Route) {
    var t := TableIn(ts, p);
    r.dest in t && r.path == t[r.dest].path + [m]
  }

  /** Exactly the destinations on offer, each with an offer of least hops: own hops, or one more than the
      hops at another peer. */
  ghost predicate LeastOffers(ts: Tables, target: Key, m: MeshId, peers: seq<Key>, t: Table) {
    && (forall d :: d in t ==> t[d].dest == d && Offered(ts, target, m, t[d], peers))
    && (forall r :: Offered(ts, target, m, r, peers) ==> r.dest in t && Hops(t[r.dest]) <= Hops(r))
  }

  lemma OffersNone(ts: Tables, target: Key, m: MeshId)
    requires Keyed(TableIn(ts, target))
    ensures LeastOffers(ts, target, m, [], TableIn(ts, target))
  {}

  /** Least offers when, besides the peers already seen, some destinations of peer p have been visited. */
  ghost predicate Grown(ts: Tables, target: Key, p: Key, m: MeshId, seen: seq<Key>, done: set<Dest>, t: Table) {
    && (forall d :: d in t ==> t[d].dest == d && Offered(ts, target, m, t[d], seen + [p]))
    && (forall r :: Offered(ts, target, m, r, seen) ==> r.dest in t && Hops(t[r.dest]) <= Hops(r))
    && (forall r :: OfferedBy(ts, p, m, r) && r.dest in done ==> r.dest in t && Hops(t[r.dest]) <= Hops(r))
  }

  lemma OfferedMore(ts: Tables, target: Key, m: MeshId, r: Route, seen: seq<Key>, p: Key)
    ensures Offered(ts, target, m, r, seen + [p])
      <==> Offered(ts, target, m, r, seen) || (p != target && OfferedBy(ts, p, m, r))
  {
    assert forall q :: q in seen + [p] <==> q in seen || q == p;
  }

  lemma GrownStart(ts: Tables, target: Key, p: Key, m: MeshId, seen: seq<Key>, t: Table)
    requires LeastOffers(ts, target, m, seen, t)
    ensures Grown(ts, target, p, m, seen, {}, t)
  {
    hide Offered;
    forall d | d in t ensures Offered(ts, target, m, t[d], seen + [p]) {
      OfferedMore(ts, target, m, t[d], seen, p);
    }
  }

  lemma GrownEnd(ts: Tables, target: Key, p: Key, m: MeshId, seen: seq<Key>, t: Table)
    requires Grown(ts, target, p, m, seen, TableIn(ts, p).Keys, t)
    ensures LeastOffers(ts, target, m, seen + [p], t)
  {
    hide Offered;
    forall r | Offered(ts, target, m, r, seen + [p]) ensures r.dest in t && Hops(t[r.dest]) <= Hops(r) {
      OfferedMore(ts, target, m, r, seen, p);
    }
  }

  /** The table once the loop has visited destination d of peer p's table. */
  function Visited(table: Table, m: MeshId, t: Table, d: Dest): Table
    requires d in table
  {
    var route := table[d];
    if route.dest !in t || Hops(route) + 1 < Hops(t[route.dest]) then t[route.dest := Route(route.dest, route.path + [m])] else t
  }

  /** One more destination of p. Target's own table never loses to itself with a hop added. */
  lemma GrownStep(ts: Tables, target: Key, p: Key, m: MeshId, seen: seq<Key>, done: set<Dest>, t: Table, d: Dest)
    requires Grown(ts, target, p, m, seen, done, t) && Keyed(TableIn(ts, p)) && d in TableIn(ts, p)
    requires Keyed(TableIn(ts, target))
    ensures Grown(ts, target, p, m, seen, done + {d}, Visited(TableIn(ts, p), m, t, d))
  {
    var route := TableIn(ts, p)[d];
    var r := Route(d, route.path + [m]);
    var t' := Visited(TableIn(ts, p), m, t, d);
    assert route.dest == d && OfferedBy(ts, p, m, r);
    OfferedMore(ts, target, m, r, seen, p);
    if p == target {
      assert Offered(ts, target, m, route, seen);
    }
    assert forall e :: e in t' ==> (e in t && t'[e] == t[e]) || (e == d && t'[e] == r && Offered(ts, target, m, r, seen + [p]));
    assert forall e :: e in t ==> e in t' && Hops(t'[e]) <= Hops(t[e]);
    assert d in t' && Hops(t'[d]) <= Hops(r);
    hide Offered, Keyed, Visited, Grown;
    GrownBy(ts, target, p, m, seen, done, t, r, t');
  }

  lemma GrownBy(ts: Tables, target: Key, p: Key, m: MeshId, seen: seq<Key>, done: set<Dest>, t: Table, r: Route, t': Table)
    requires Grown(ts, target, p, m, seen, done, t) && OfferedBy(ts, p, m, r)
    requires forall e :: e in t' ==>
      (e in t && t'[e] == t[e]) || (e == r.dest && t'[e] == r && Offered(ts, target, m, r, seen + [p]))
    requires forall e :: e in t ==> e in t' && Hops(t'[e]) <= Hops(t[e])
    requires r.dest in t' && Hops(t'[r.dest]) <= Hops(r)
    ensures Grown(ts, target, p, m, seen, done + {r.dest}, t')
  {
    hide Offered;
    forall q | OfferedBy(ts, p, m, q) && q.dest == r.dest ensures q == r {}
    hide OfferedBy;
  }

  ghost predicate ArePeers(s: Store<MeshNode>, peers: seq<Key>) {
    forall k :: k in peers <==> IsPeer(s, k)
  }

  /** Paths may depend on the order peers and routes are visited in, but destinations and hop counts do not. */
  lemma HopsUnique(s: Store<MeshNode>, target: Key, m: MeshId, ps: seq<Key>, qs: seq<Key>, t: Table, u: Table)
    requires ArePeers(s, ps) && ArePeers(s, qs)
    requires LeastOffers(TablesOf(s), target, m, ps, t) && LeastOffers(TablesOf(s), target, m, qs, u)
    ensures t.Keys == u.Keys && forall d :: d in t ==> Hops(t[d]) == Hops(u[d])
  {
    forall r ensures Offered(TablesOf(s), target, m, r, ps) <==> Offered(TablesOf(s), target, m, r, qs) {}
    forall d | d in t ensures d in u && Hops(u[d]) <= Hops(t[d]) {
      assert Offered(TablesOf(s), target, m, t[d], qs);
    }
    forall d | d in u ensures d in t && Hops(t[d]) <= Hops(u[d]) {
      assert Offered(TablesOf(s), target, m, u[d], ps);
    }
  }
}
