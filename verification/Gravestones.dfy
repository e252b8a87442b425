/** The flag a replica sets on a peer it cannot reach: how it travels, and what it changes. */
module Gravestones {
  import opened NatMaps
  import opened Replica
  import opened Causality
  import opened Syncers
  import opened Convergence
  import opened Sessions
  import opened RouteTables
  import AtomicRuns

  predicate Marked<D>(m: map<Key, Bucket<D>>, k: Key) {
    k in m && m[k].gravestone
  }

  // ---- How a mark travels ----

  /** After a merge a key is marked exactly when the newer of the two buckets is, and the live one on a tie. */
  lemma MergeMarksIff<D>(s: Store<D>, snap: Snapshot<D>, now: nat, k: Key)
    ensures Marked(Replica.Merge(s, snap, now).add, k) <==>
      if Stamp(s.add, k) < Stamp(snap.add, k) then snap.add[k].gravestone else Marked(s.add, k)
  {
    hide ClockMerge;
  }

  /** After a whole session a key is marked exactly when it was marked on the end whose bucket survives:
      the peer's if it is newer and above the stale bound. */
  lemma SessionMarksIff<D>(s: Store<D>, peer: Store<D>, now: nat, peerNow: nat, k: Key)
    ensures Marked(Synced(s, peer, now, peerNow).add, k) <==>
      if !ExitsEarly(s, peer) && s.clock.highestStale < Stamp(peer.add, k) && Stamp(s.add, k) < Stamp(peer.add, k)
      then Marked(peer.add, k) else Marked(s.add, k)
  {
    hide Synced, MergeAbove;
    if ExitsEarly(s, peer) {
      SyncedEarly(s, peer, now, peerNow);
    } else {
      SessionMaps(s, peer, now, peerNow);
      MergeAboveAt(s.add, peer.add, s.clock.highestStale);
    }
  }

  /** The run in which it happens: 2 writes, 1 learns of 2 and marks it, and 3, which marks nothing, syncs
      with 1 and holds 2 marked. */
  lemma MarkTravels<D(!new)>(d: D) returns (ws: seq<AtomicRuns.Mesh<D>>, moves: seq<AtomicRuns.Move<D>>)
    ensures AtomicRuns.IsPlainRun(ws) && |moves| == |ws| - 1
    ensures forall t :: 0 <= t < |moves| ==>
      AtomicRuns.Enabled(ws[t], moves[t]) && ws[t + 1] == AtomicRuns.Apply(ws[t], moves[t])
    ensures forall m :: m in moves && m.MarkNode? ==> m.i == 1
    ensures 3 in ws[|ws| - 1] && Marked(ws[|ws| - 1][3].add, 2)
  {
    hide Put, Synced, ClockHash, Marked;
    var e1, e2, e3: Store<D> := Empty(1, 0, d), Empty(2, 0, d), Empty(3, 0, d);
    var owner := Put(e2, 2, d, 0);
    AtomicRuns.OwnWrite(e2, 2, 0, d);
    AtomicRuns.HashSingle(owner.clock, 2, 2);
    AtomicRuns.HashNone(e1.clock);
    AtomicRuns.HashNone(e3.clock);
    var learnt, owner' := Synced(e1, owner, 0, 0), Synced(owner, e1, 0, 0);
    var marker := Mark(learnt, 2);
    LearntFirst(e1, owner, d);
    SessionMarksIff(e3, marker, 0, 0, 2);
    var third, marker' := Synced(e3, marker, 0, 0), Synced(marker, e3, 0, 0);
    assert Marked(marker.add, 2) by { MarkedItself(learnt, 2); }
    ws := [map[], map[1 := e1], map[1 := e1, 2 := e2], map[1 := e1, 2 := e2, 3 := e3], map[1 := e1, 2 := owner, 3 := e3],
           map[1 := learnt, 2 := owner', 3 := e3], map[1 := marker, 2 := owner', 3 := e3],
           map[1 := marker', 2 := owner', 3 := third]];
    moves := [AtomicRuns.Join(1, 0, d), AtomicRuns.Join(2, 0, d), AtomicRuns.Join(3, 0, d), AtomicRuns.Write(2, d, 0),
              AtomicRuns.Sync(1, 2, 0, 0), AtomicRuns.MarkNode(1, 2), AtomicRuns.Sync(3, 1, 0, 0)];
    forall t | 0 <= t < |moves|
      ensures AtomicRuns.Enabled(ws[t], moves[t]) && ws[t + 1] == AtomicRuns.Apply(ws[t], moves[t])
      ensures AtomicRuns.PlainStep(ws[t], ws[t + 1])
    {
      AtomicRuns.OneMove(ws[t], ws[t + 1], moves[t]);
    }
  }

  lemma MarkedItself<D>(s: Store<D>, k: Key)
    requires k in s.add
    ensures Marked(Mark(s, k).add, k)
  {}

  /** What a new replica 1 holds after its first session with 2. */
  lemma LearntFirst<D>(e1: Store<D>, owner: Store<D>, d: D)
    requires e1 == Empty(1, 0, d) && owner == Put(Empty(2, 0, d), 2, d, 0) && !ExitsEarly(e1, owner)
    ensures
      var learnt := Synced(e1, owner, 0, 0);
      Stamp(learnt.add, 2) == 1 && 2 in learnt.add && ClockHash(learnt.clock) == 10
  {
    hide Synced, Put, MergeAbove;
    AtomicRuns.OwnWrite(Empty(2, 0, d), 2, 0, d);
    var e2 := Empty(2, 0, d);
    MaxUnique(Clocks(e2.clock.vectors), 0);
    PutStamp(e2, 2, d, 0);
    SessionMaps(e1, owner, 0, 0);
    MergeAboveAt(e1.add, owner.add, 0);
    SessionJoinsClocks(e1, owner, 0, 0);
    var c := Synced(e1, owner, 0, 0).clock;
    FirstTicks(e1.clock, owner.clock);
    assert forall k :: ClockAt(c, k) == if k == 1 then 1 else if k == 2 then 3 else 0;
    PairHash(c);
  }

  lemma FirstTicks(c: Clock, d: Clock)
    requires c == Clock(1, 0, map[], 0) && d.self == 2 && d.vectors == map[2 := VectorBucket(2, 0)]
    ensures Tick(c, 0).vectors == map[1 := VectorBucket(1, 0)] && Tick(d, 0).vectors == map[2 := VectorBucket(3, 0)]
  {
    MaxUnique(Clocks(c.vectors), 0);
    assert 2 in Clocks(d.vectors) && Clocks(d.vectors)[2] == 2;
    MaxUnique(Clocks(d.vectors), 2);
  }

  lemma PairHash(c: Clock)
    requires Positive(c) && forall k :: ClockAt(c, k) == if k == 1 then 1 else if k == 2 then 3 else 0
    ensures ClockHash(c) == 10
  {
    forall k ensures k in c.vectors <==> k == 1 || k == 2 {
      assert ClockAt(c, k) == if k == 1 then 1 else if k == 2 then 3 else 0;
    }
    assert ClockAt(c, 1) == 1 && ClockAt(c, 2) == 3;
    var m: map<Key, nat> := map[1 := 2, 2 := 8];
    assert Weights(c.vectors) == m;
    AtomicRuns.SumPair(m, 1, 2);
  }

  // ---- What a mark changes ----

  /** Stores that are the same up to marks have the same contactable peers exactly when they agree on the
      marks of the present peers. */
  lemma SamePeersIff(s: Store<MeshNode>, s': Store<MeshNode>)
    requires Same(s.add, s'.add) && Same(s.rem, s'.rem)
    ensures (forall k :: IsPeer(s, k) <==> IsPeer(s', k)) <==>
      (forall k :: Contains(s, k) && s.add[k].contents.nodeType == Peer ==> (Marked(s.add, k) <==> Marked(s'.add, k)))
  {
    forall k ensures Contains(s, k) <==> Contains(s', k) {}
    forall k | Contains(s, k)
      ensures (IsPeer(s, k) <==> IsPeer(s', k)) <==>
        (s.add[k].contents.nodeType == Peer ==> (Marked(s.add, k) <==> Marked(s'.add, k)))
    {}
  }

  /** And where they do not agree, they find different routes: of two stores that are the same up to one
      mark, one offers node 1 the route its peer 2 advertises, and the other offers nothing. */
  lemma MarkHidesRoutes(m: MeshId, r: Route, t: Table, t': Table)
    requires r.path != []
    requires
      var s := TwoNodes(r, false);
      LeastOffers(TablesOf(s), 1, m, [1, 2], t)
    requires
      var s' := TwoNodes(r, true);
      LeastOffers(TablesOf(s'), 1, m, [1], t')
    ensures
      var s, s' := TwoNodes(r, false), TwoNodes(r, true);
      && Same(s.add, s'.add) && Same(s.rem, s'.rem) && ArePeers(s, [1, 2]) && ArePeers(s', [1])
      && r.dest in t && Hops(t[r.dest]) == Hops(r) + 1 && t' == map[]
  {
    OfferSeen(TablesOf(TwoNodes(r, false)), m, r, t);
    NothingSeen(TablesOf(TwoNodes(r, true)), m, t');
    hide LeastOffers;
  }

  lemma OfferSeen(ts: Tables, m: MeshId, r: Route, t: Table)
    requires TableIn(ts, 1) == map[] && TableIn(ts, 2) == map[r.dest := r] && LeastOffers(ts, 1, m, [1, 2], t)
    ensures r.dest in t && Hops(t[r.dest]) == Hops(r) + 1
  {
    var offer := Route(r.dest, r.path + [m]);
    assert OfferedBy(ts, 2, m, offer) && 2 in [1, 2];
    assert Offered(ts, 1, m, offer, [1, 2]);
    assert Offered(ts, 1, m, t[r.dest], [1, 2]);
  }

  lemma NothingSeen(ts: Tables, m: MeshId, t: Table)
    requires TableIn(ts, 1) == map[] && LeastOffers(ts, 1, m, [1], t)
    ensures t == map[]
  {
    assert forall q :: !Offered(ts, 1, m, q, [1]);
  }

  /** A mesh of two peers, of which the second advertises a route and may be marked. */
  function TwoNodes(r: Route, marked: bool): Store<MeshNode> {
    var self, peer := MeshNode(1, Peer, map[]), MeshNode(2, Peer, map[r.dest := r]);
    Store(map[1 := Bucket(1, self, false), 2 := Bucket(1, peer, marked)], map[],
          Clock(1, 0, map[1 := VectorBucket(2, 0), 2 := VectorBucket(1, 0)], 0), self)
  }
}
