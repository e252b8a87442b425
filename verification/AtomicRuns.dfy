/** Runs whose sessions are uninterrupted: why equal clocks may end a session early, and why a pruned
    entry stays pruned. */
module AtomicRuns {
  import opened NatMaps
  import opened Replica
  import opened Causality
  import opened Syncers
  import opened Convergence
  import opened Sessions

  type Mesh<D> = map<Key, Store<D>>

  /** A replica writes and removes only the entry of its own key. `JoinFrom` is a new replica that
      loads the saved maps of another. */
  datatype Move<D> =
    | Join(i: Key, staleTime: nat, zero: D)
    | Write(i: Key, data: D, now: nat)
    | Leave(i: Key, now: nat)
    | MarkNode(i: Key, k: Key)
    | Sync(i: Key, j: Key, t: nat, u: nat)
    | PruneNode(i: Key)
    | JoinFrom(i: Key, j: Key, staleTime: nat, zero: D, now: nat)

  ghost predicate Enabled<D>(w: Mesh<D>, a: Move<D>) {
    if a.Join? then a.i !in w
    else if a.JoinFrom? then a.i !in w && a.j in w
    else
      && a.i in w
      && (a.Leave? ==> Contains(w[a.i], a.i))
      && (a.Sync? ==> a.j in w && a.j != a.i)
  }

  ghost function BothSynced<D>(w: Mesh<D>, i: Key, j: Key, t: nat, u: nat): Mesh<D>
    requires i in w && j in w
  {
    w[i := Synced(w[i], w[j], t, u)][j := Synced(w[j], w[i], u, t)]
  }

  ghost function Apply<D>(w: Mesh<D>, a: Move<D>): Mesh<D>
    requires Enabled(w, a)
  {
    match a
    case Join(i, staleTime, zero) => w[i := Empty(i, staleTime, zero)]
    case Write(i, data, now) => w[i := Put(w[i], i, data, now)]
    case Leave(i, now) => w[i := Remove(w[i], i, now)]
    case MarkNode(i, k) => w[i := Mark(w[i], k)]
    case Sync(i, j, t, u) => BothSynced(w, i, j, t, u)
    case PruneNode(i) => w[i := Prune(w[i])]
    case JoinFrom(i, j, staleTime, zero, now) =>
      w[i := Merge(Empty(i, staleTime, zero), Snapshot(w[j].add, w[j].rem), now)]
  }

  ghost predicate Step<D(!new)>(w: Mesh<D>, w': Mesh<D>) {
    exists a :: Enabled(w, a) && w' == Apply(w, a)
  }

  /** Steps that neither prune nor load. */
  ghost predicate PlainStep<D(!new)>(w: Mesh<D>, w': Mesh<D>) {
    exists a :: Enabled(w, a) && !a.PruneNode? && !a.JoinFrom? && w' == Apply(w, a)
  }

  ghost predicate IsRun<D(!new)>(ws: seq<Mesh<D>>) {
    ws != [] && ws[0] == map[] && forall t :: 0 <= t < |ws| - 1 ==> Step(ws[t], ws[t + 1])
  }

  ghost predicate IsPlainRun<D(!new)>(ws: seq<Mesh<D>>) {
    ws != [] && ws[0] == map[] && forall t :: 0 <= t < |ws| - 1 ==> PlainStep(ws[t], ws[t + 1])
  }

  // ---- Early exit ----

  /** What a store says about one key: its clock, the two stamps and the added data. */
  datatype View<D> = View(clock: nat, add: nat, rem: nat, data: Option<D>)

  function ViewOf<D>(s: Store<D>, k: Key): View<D> {
    View(ClockAt(s.clock, k), Stamp(s.add, k), Stamp(s.rem, k), if k in s.add then Some(s.add[k].contents) else None)
  }

  /** A view with no greater clock has no newer entries, and equal stamps carry equal data. */
  ghost predicate Ordered<D>(v: View<D>, v': View<D>) {
    && (v.clock <= v'.clock ==> v.add <= v'.add && v.rem <= v'.rem)
    && (v.add == v'.add ==> v.data == v'.data)
  }

  ghost predicate StoreOk<D>(s: Store<D>, i: Key) {
    && s.clock.self == i && s.clock.highestStale == 0 && Stamped(s) && OwnAhead(s)
    && forall k :: k in s.rem ==> s.rem[k].contents
  }

  ghost function OwnView<D>(w: Mesh<D>, k: Key): View<D> {
    if k in w then ViewOf(w[k], k) else View(0, 0, 0, None)
  }

  ghost predicate Inv<D>(w: Mesh<D>) {
    && (forall i :: i in w ==> StoreOk(w[i], i))
    && (forall i, k :: i in w ==> ClockAt(w[i].clock, k) <= OwnView(w, k).clock)
    && (forall i, j, k :: i in w && j in w ==> Ordered(ViewOf(w[i], k), ViewOf(w[j], k)))
  }

  lemma InvStore<D>(w: Mesh<D>, i: Key)
    requires Inv(w) && i in w
    ensures StoreOk(w[i], i)
  {}

  /** Replica i changed only what it says about itself, and its clock there moved on. */
  ghost predicate OwnMove<D>(s: Store<D>, s': Store<D>, i: Key) {
    var v, v' := ViewOf(s, i), ViewOf(s', i);
    && v.clock < v'.clock && v.add <= v'.add && v.rem <= v'.rem
    && (v.add == v'.add ==> v.data == v'.data)
    && forall k :: k != i ==> ViewOf(s', k) == ViewOf(s, k)
  }

  lemma InvViews<D>(w: Mesh<D>, i: Key, j: Key, k: Key)
    requires Inv(w) && i in w && j in w
    ensures Ordered(ViewOf(w[i], k), ViewOf(w[j], k)) && ViewOf(w[i], k).clock <= OwnView(w, k).clock
  {}

  lemma MovedView<D>(v: View<D>, was: View<D>, own: View<D>)
    requires v.clock <= was.clock && Ordered(v, was) && Ordered(was, v)
    requires was.clock < own.clock && was.add <= own.add && was.rem <= own.rem
    requires was.add == own.add ==> was.data == own.data
    ensures Ordered(v, own) && Ordered(own, v)
  {}

  lemma OwnMoveKeeps<D>(w: Mesh<D>, i: Key, s': Store<D>)
    requires Inv(w) && i in w && OwnMove(w[i], s', i) && StoreOk(s', i)
    ensures Inv(w[i := s'])
  {
    hide StoreOk, Inv, ViewOf, Ordered;
    var w' := w[i := s'];
    forall j | j in w' ensures StoreOk(w'[j], j) {
      if j != i {
        InvStore(w, j);
      }
    }
    forall j, k | j in w' ensures ViewOf(w'[j], k).clock <= OwnView(w', k).clock {
      InvViews(w, j, i, k);
    }
    forall j, l, k | j in w' && l in w' ensures Ordered(ViewOf(w'[j], k), ViewOf(w'[l], k)) {
      InvViews(w, j, l, k);
      if k == i {
        InvViews(w, j, i, i);
        InvViews(w, l, i, i);
        InvViews(w, i, j, i);
        InvViews(w, i, l, i);
        MovedView(ViewOf(w[j], i), ViewOf(w[i], i), ViewOf(s', i));
        MovedView(ViewOf(w[l], i), ViewOf(w[i], i), ViewOf(s', i));
        OrderedItself(ViewOf(s', i));
      }
    }
    InvFromViews(w');
  }

  lemma OrderedItself<D>(v: View<D>)
    ensures Ordered(v, v)
  {}

  lemma InvFromViews<D>(w: Mesh<D>)
    requires forall i :: i in w ==> StoreOk(w[i], i)
    requires forall i, k :: i in w ==> ViewOf(w[i], k).clock <= OwnView(w, k).clock
    requires forall i, j, k :: i in w && j in w ==> Ordered(ViewOf(w[i], k), ViewOf(w[j], k))
    ensures Inv(w)
  {
    hide StoreOk, Ordered;
    forall i, k | i in w ensures ClockAt(w[i].clock, k) <= OwnView(w, k).clock {
      assert ViewOf(w[i], k).clock == ClockAt(w[i].clock, k);
    }
  }

  lemma TickMoves<D>(s: Store<D>, i: Key, now: nat)
    requires StoreOk(s, i)
    ensures StoreOk(Ticked(s, now), i) && OwnMove(s, Ticked(s, now), i)
  {
    TickKeeps(s, now);
    ClockBelowMax(s.clock, i);
  }

  lemma WriteMoves<D>(s: Store<D>, i: Key, data: D, now: nat)
    requires StoreOk(s, i)
    ensures StoreOk(Put(s, i, data, now), i) && OwnMove(s, Put(s, i, data, now), i)
  {
    PutStamp(s, i, data, now);
    PutDominates(s, i, data, now);
    PutKeeps(s, data, now);
    ClockBelowMax(s.clock, i);
  }

  lemma LeaveMoves<D>(s: Store<D>, i: Key, now: nat)
    requires StoreOk(s, i) && Contains(s, i)
    ensures StoreOk(Remove(s, i, now), i) && OwnMove(s, Remove(s, i, now), i)
  {
    RemoveKeeps(s, now);
    ClockBelowMax(s.clock, i);
  }

  /** Both stores now say, key by key, what one of them said before. */
  lemma JoinViews<D>(s: Store<D>, peer: Store<D>, i: Key, j: Key, now: nat, peerNow: nat, k: Key)
    requires StoreOk(s, i) && StoreOk(peer, j) && !ExitsEarly(s, peer)
    requires Ordered(ViewOf(Ticked(s, now), k), ViewOf(Ticked(peer, peerNow), k))
    requires Ordered(ViewOf(Ticked(peer, peerNow), k), ViewOf(Ticked(s, now), k))
    ensures
      var v, v' := ViewOf(Ticked(s, now), k), ViewOf(Ticked(peer, peerNow), k);
      ViewOf(Synced(s, peer, now, peerNow), k) == if v.clock <= v'.clock then v' else v
  {
    hide Synced, MergeAbove, Tick, ClockHash, Seen;
    SessionMaps(s, peer, now, peerNow);
    SessionJoinsClocks(s, peer, now, peerNow);
    MergeAboveAt(s.add, peer.add, 0);
    MergeAboveAt(s.rem, peer.rem, 0);
    SeenAt(s.add, s.clock, k);
    SeenAt(peer.add, peer.clock, k);
  }

  lemma SeenAt<D>(m: map<Key, Bucket<D>>, c: Clock, k: Key)
    requires Seen(m, c)
    ensures k in m <==> 0 < Stamp(m, k)
  {}

  /** A session in which each end takes over, key by key, the view with the greater clock. */
  lemma ViewsJoinKeeps<D>(w: Mesh<D>, i: Key, j: Key, s: Store<D>, p: Store<D>)
    requires Inv(w) && i in w && j in w && i != j && StoreOk(s, i) && StoreOk(p, j)
    requires forall k :: ViewOf(s, k) == ViewOf(p, k)
    requires forall k :: ViewOf(s, k) == ViewOf(w[i], k) || ViewOf(s, k) == ViewOf(w[j], k)
    requires ViewOf(w[i], i).clock <= ViewOf(s, i).clock && ViewOf(w[j], j).clock <= ViewOf(p, j).clock
    ensures Inv(w[i := s][j := p])
  {
    hide StoreOk, Inv, ViewOf, Ordered;
    var w' := w[i := s][j := p];
    forall l | l in w' ensures StoreOk(w'[l], l) {
      if l != i && l != j {
        InvStore(w, l);
      }
    }
    forall l, k | l in w' ensures ViewOf(w'[l], k).clock <= OwnView(w', k).clock {
      var src := Source(w, i, j, w'[l], l, k);
      InvViews(w, src, src, k);
    }
    forall l, m, k | l in w' && m in w' ensures Ordered(ViewOf(w'[l], k), ViewOf(w'[m], k)) {
      var src := Source(w, i, j, w'[l], l, k);
      var dst := Source(w, i, j, w'[m], m, k);
      InvViews(w, src, dst, k);
    }
    InvFromViews(w');
  }

  /** The replica of the old world that already held the view. */
  lemma Source<D>(w: Mesh<D>, i: Key, j: Key, s: Store<D>, l: Key, k: Key) returns (src: Key)
    requires i in w && j in w && l in w
    requires s == w[l] || ViewOf(s, k) == ViewOf(w[i], k) || ViewOf(s, k) == ViewOf(w[j], k)
    ensures src in w && ViewOf(w[src], k) == ViewOf(s, k)
  {
    hide ViewOf;
    src := if s == w[l] then l else if ViewOf(s, k) == ViewOf(w[i], k) then i else j;
  }

  lemma SyncKeeps<D>(w: Mesh<D>, i: Key, j: Key, t: nat, u: nat)
    requires Inv(w) && i in w && j in w && i != j
    ensures Inv(BothSynced(w, i, j, t, u))
  {
    hide StoreOk, Inv, ViewOf, Ordered, Synced, Ticked, ClockHash;
    var a, b := w[i], w[j];
    if ExitsEarly(a, b) {
      SyncedEarly(a, b, t, u);
      SyncedEarly(b, a, u, t);
      assert w[i := a][j := b] == w;
    } else {
      InvStore(w, i);
      InvStore(w, j);
      TickMoves(a, i, t);
      TickMoves(b, j, u);
      OwnMoveKeeps(w, i, Ticked(a, t));
      var w1 := w[i := Ticked(a, t)];
      OwnMoveKeeps(w1, j, Ticked(b, u));
      var w2 := w1[j := Ticked(b, u)];
      var a', b' := Synced(a, b, t, u), Synced(b, a, u, t);
      forall k
        ensures ViewOf(a', k) == ViewOf(b', k)
        ensures ViewOf(a', k) == ViewOf(w2[i], k) || ViewOf(a', k) == ViewOf(w2[j], k)
        ensures ViewOf(w2[i], k).clock <= ViewOf(a', k).clock && ViewOf(w2[j], k).clock <= ViewOf(a', k).clock
      {
        InvViews(w2, i, j, k);
        InvViews(w2, j, i, k);
        JoinViews(a, b, i, j, t, u, k);
        JoinViews(b, a, j, i, u, t, k);
        SameClockSameView(ViewOf(w2[i], k), ViewOf(w2[j], k));
      }
      OwnViewKept(w2, a, b, i, j, t, u);
      OwnViewKept(w2, b, a, j, i, u, t);
      SyncedOk(a, b, i, j, t, u);
      SyncedOk(b, a, j, i, u, t);
      ViewsJoinKeeps(w2, i, j, a', b');
      assert w2[i := a'][j := b'] == w[i := a'][j := b'];
    }
  }

  /** Nobody knows more about a replica than it does itself, so a session cannot change its own view. */
  lemma OwnViewKept<D>(w: Mesh<D>, s: Store<D>, peer: Store<D>, i: Key, j: Key, now: nat, peerNow: nat)
    requires Inv(w) && i in w && j in w && w[i] == Ticked(s, now) && w[j] == Ticked(peer, peerNow)
    requires StoreOk(s, i) && StoreOk(peer, j) && !ExitsEarly(s, peer)
    ensures ViewOf(Synced(s, peer, now, peerNow), i) == ViewOf(Ticked(s, now), i)
  {
    hide StoreOk, Inv, ViewOf, Ordered, Synced, Ticked, ClockHash;
    InvViews(w, j, i, i);
    InvViews(w, i, j, i);
    JoinViews(s, peer, i, j, now, peerNow, i);
    SameClockSameView(ViewOf(w[i], i), ViewOf(w[j], i));
  }

  lemma SameClockSameView<D>(v: View<D>, v': View<D>)
    requires Ordered(v, v') && Ordered(v', v)
    ensures v.clock == v'.clock ==> v == v'
  {}

  /** A session keeps one end's own discipline as long as it keeps what that end says about itself. */
  lemma SyncedOk<D>(s: Store<D>, peer: Store<D>, i: Key, j: Key, now: nat, peerNow: nat)
    requires StoreOk(s, i) && StoreOk(peer, j) && !ExitsEarly(s, peer)
    requires ViewOf(Synced(s, peer, now, peerNow), i) == ViewOf(Ticked(s, now), i)
    ensures StoreOk(Synced(s, peer, now, peerNow), i)
  {
    hide Synced, MergeAbove, ClockHash, Tick, Stamped;
    var s', ticked := Synced(s, peer, now, peerNow), Ticked(s, now);
    TickMoves(s, i, now);
    assert OwnAhead(ticked);
    SessionClock(s, peer, now, peerNow) by { assert Stamped(s); StampedPositive(s); }
    SessionStamped(s, peer, now, peerNow);
    SessionMaps(s, peer, now, peerNow);
    MergeAboveAt(s.rem, peer.rem, 0);
    assert Stamp(s'.add, i) == Stamp(ticked.add, i) && Stamp(s'.rem, i) == Stamp(ticked.rem, i);
  }

  lemma StampedPositive<D>(s: Store<D>)
    requires Stamped(s)
    ensures Positive(s.clock)
  {}

  lemma PlainStepKeeps<D>(w: Mesh<D>, a: Move<D>)
    requires Inv(w) && Enabled(w, a) && !a.PruneNode? && !a.JoinFrom?
    ensures Inv(Apply(w, a))
  {
    hide StoreOk, Inv, ViewOf, Ordered, Synced;
    if !a.Join? {
      InvStore(w, a.i);
    }
    match a
    case Join(i, staleTime, zero) => JoinKeeps(w, i, staleTime, zero);
    case Write(i, data, now) =>
      WriteMoves(w[i], i, data, now);
      OwnMoveKeeps(w, i, Put(w[i], i, data, now));
    case Leave(i, now) =>
      LeaveMoves(w[i], i, now);
      OwnMoveKeeps(w, i, Remove(w[i], i, now));
    case MarkNode(i, k) => MarkKeeps(w, i, k);
    case Sync(i, j, t, u) => SyncKeeps(w, i, j, t, u);
  }

  lemma JoinKeeps<D>(w: Mesh<D>, i: Key, staleTime: nat, zero: D)
    requires Inv(w) && i !in w
    ensures Inv(w[i := Empty(i, staleTime, zero)])
  {
    hide StoreOk, Inv, Ordered;
    var e: Store<D> := Empty(i, staleTime, zero);
    var w' := w[i := e];
    EmptyOk(i, staleTime, zero);
    forall j | j in w' ensures StoreOk(w'[j], j) {
      if j != i {
        InvStore(w, j);
      }
    }
    forall j, k | j in w' ensures ViewOf(w'[j], k).clock <= OwnView(w', k).clock {
      if j != i {
        InvViews(w, j, j, k);
      }
    }
    forall j, l, k | j in w' && l in w' ensures Ordered(ViewOf(w'[j], k), ViewOf(w'[l], k)) {
      if j != i && l != i {
        InvViews(w, j, l, k);
      } else {
        if j != i {
          InvStore(w, j);
          NothingOrdered(w[j], j, k);
        }
        if l != i {
          InvStore(w, l);
          NothingOrdered(w[l], l, k);
        }
        OrderedItself(ViewOf(e, k));
      }
    }
    InvFromViews(w');
  }

  lemma EmptyOk<D>(i: Key, staleTime: nat, zero: D)
    ensures StoreOk(Empty(i, staleTime, zero), i)
  {}

  lemma NothingOrdered<D>(s: Store<D>, i: Key, k: Key)
    requires StoreOk(s, i)
    ensures Ordered(ViewOf(s, k), View(0, 0, 0, None)) && Ordered(View(0, 0, 0, None), ViewOf(s, k))
  {
    SeenAt(s.add, s.clock, k);
    SeenAt(s.rem, s.clock, k);
  }

  lemma MarkKeeps<D>(w: Mesh<D>, i: Key, k: Key)
    requires Inv(w) && i in w
    ensures Inv(w[i := Mark(w[i], k)])
  {
    hide StoreOk, Inv, Ordered, ViewOf;
    var s' := Mark(w[i], k);
    var w' := w[i := s'];
    MarkSame(w[i], i, k);
    forall j | j in w' ensures StoreOk(w'[j], j) {
      if j == i {
        InvStore(w, i);
      } else {
        InvStore(w, j);
      }
    }
    forall j, l | j in w' ensures ViewOf(w'[j], l).clock <= OwnView(w', l).clock {
      InvViews(w, j, j, l);
    }
    forall j, m, l | j in w' && m in w' ensures Ordered(ViewOf(w'[j], l), ViewOf(w'[m], l)) {
      InvViews(w, j, m, l);
    }
    InvFromViews(w');
  }

  lemma MarkSame<D>(s: Store<D>, i: Key, k: Key)
    ensures forall l :: ViewOf(Mark(s, k), l) == ViewOf(s, l)
    ensures StoreOk(s, i) ==> StoreOk(Mark(s, k), i)
  {}

  lemma {:induction false} PlainRunInv<D(!new)>(ws: seq<Mesh<D>>, t: nat)
    requires IsPlainRun(ws) && t < |ws|
    ensures Inv(ws[t])
  {
    hide Inv;
    if t == 0 {
      InvFromViews(ws[0]);
    } else {
      PlainRunInv(ws, t - 1);
      assert PlainStep(ws[t - 1], ws[t - 1 + 1]);
      var a :| Enabled(ws[t - 1], a) && !a.PruneNode? && !a.JoinFrom? && ws[t] == Apply(ws[t - 1], a);
      PlainStepKeeps(ws[t - 1], a);
    }
  }

  /** In every run of own-key writes and whole sessions: a replica whose clock for k is no greater has no
      newer entry at k, and at equal clocks both say the same about k. */
  lemma ClockOrdersEntries<D(!new)>(ws: seq<Mesh<D>>, t: nat, i: Key, j: Key, k: Key)
    requires IsPlainRun(ws) && t < |ws| && i in ws[t] && j in ws[t]
    ensures
      var v, v' := ViewOf(ws[t][i], k), ViewOf(ws[t][j], k);
      && (v.clock <= v'.clock ==> v.add <= v'.add && v.rem <= v'.rem)
      && (v.clock == v'.clock ==> v == v')
  {
    hide Inv, IsPlainRun, ViewOf;
    PlainRunInv(ws, t);
    InvViews(ws[t], i, j, k);
    InvViews(ws[t], j, i, k);
    SameClockSameView(ViewOf(ws[t][i], k), ViewOf(ws[t][j], k));
  }

  /** The clock hash tells these two clocks apart if they differ. */
  ghost predicate NoCollision<D>(s: Store<D>, s': Store<D>) {
    ClockHash(s.clock) == ClockHash(s'.clock) ==> Clocks(s.clock.vectors) == Clocks(s'.clock.vectors)
  }

  /** So giving up a session on equal hashes loses nothing, unless the hashes collide. */
  lemma EarlyExitSound<D(!new)>(ws: seq<Mesh<D>>, t: nat, i: Key, j: Key)
    requires IsPlainRun(ws) && t < |ws| && i in ws[t] && j in ws[t]
    requires ExitsEarly(ws[t][i], ws[t][j]) && NoCollision(ws[t][i], ws[t][j])
    ensures Same(ws[t][i].add, ws[t][j].add) && Same(ws[t][i].rem, ws[t][j].rem)
  {
    hide IsPlainRun, Inv, ClockHash;
    var s, s' := ws[t][i], ws[t][j];
    PlainRunInv(ws, t);
    InvStore(ws[t], i);
    InvStore(ws[t], j);
    forall k ensures ViewOf(s, k) == ViewOf(s', k) {
      ClockOrdersEntries(ws, t, i, j, k);
      assert At(Clocks(s.clock.vectors), k) == At(Clocks(s'.clock.vectors), k);
    }
    SameViews(s, s', i, j);
  }

  lemma SameViews<D>(s: Store<D>, s': Store<D>, i: Key, j: Key)
    requires StoreOk(s, i) && StoreOk(s', j)
    requires forall k :: ViewOf(s, k).add == ViewOf(s', k).add && ViewOf(s, k).rem == ViewOf(s', k).rem
                      && ViewOf(s, k).data == ViewOf(s', k).data
    ensures Same(s.add, s'.add) && Same(s.rem, s'.rem)
  {
    forall k ensures k in s.add <==> k in s'.add {
      SeenAt(s.add, s.clock, k);
      SeenAt(s'.add, s'.clock, k);
      assert ViewOf(s, k).add == ViewOf(s', k).add;
    }
    forall k ensures k in s.rem <==> k in s'.rem {
      SeenAt(s.rem, s.clock, k);
      SeenAt(s'.rem, s'.clock, k);
      assert ViewOf(s, k).rem == ViewOf(s', k).rem;
    }
    forall k | k in s.add ensures s.add[k].vector == s'.add[k].vector && s.add[k].contents == s'.add[k].contents {
      assert ViewOf(s, k).add == ViewOf(s', k).add && ViewOf(s, k).data == ViewOf(s', k).data;
    }
    forall k | k in s.rem ensures s.rem[k].vector == s'.rem[k].vector {
      assert ViewOf(s, k).rem == ViewOf(s', k).rem;
    }
  }

  /** The hash does collide: these clocks differ and hash alike. */
  lemma HashCollides()
    ensures
      var c := Clock(1, 0, map[1 := VectorBucket(3, 0), 2 := VectorBucket(1, 0)], 0);
      var c' := Clock(1, 0, map[1 := VectorBucket(1, 0), 2 := VectorBucket(2, 0)], 0);
      Clocks(c.vectors) != Clocks(c'.vectors) && ClockHash(c) == ClockHash(c')
  {
    var m: map<Key, nat> := map[1 := 4, 2 := 4];
    var m': map<Key, nat> := map[1 := 2, 2 := 6];
    SumPair(m, 1, 2);
    SumPair(m', 1, 2);
    assert Weights(map[1 := VectorBucket(3, 0), 2 := VectorBucket(1, 0)]) == m;
    assert Weights(map[1 := VectorBucket(1, 0), 2 := VectorBucket(2, 0)]) == m';
    assert Clocks(map[1 := VectorBucket(3, 0), 2 := VectorBucket(1, 0)])[1] == 3;
  }

  /** It does so in a run: replica 3 writes twice and replica 5 once, and they exit early although neither has
      the other's entry. */
  lemma CollisionReached<D(!new)>(d: D) returns (ws: seq<Mesh<D>>)
    ensures IsPlainRun(ws) && |ws| == 6 && 3 in ws[5] && 5 in ws[5]
    ensures ExitsEarly(ws[5][3], ws[5][5]) && !Same(ws[5][3].add, ws[5][5].add)
    ensures Contains(ws[5][3], 3) && !Contains(ws[5][5], 3)
  {
    hide Put, ClockHash, IsPlainRun;
    assert IsPlainRun<D>([map[]]) by { StartOfRun<D>(); }
    var e, e': Store<D> := Empty(3, 0, d), Empty(5, 0, d);
    var s, s', t := Put(e, 3, d, 0), Put(Put(e, 3, d, 0), 3, d, 0), Put(e', 5, d, 0);
    OwnWrite(e, 3, 0, d);
    OwnWrite(s, 3, 2, d);
    OwnWrite(e', 5, 0, d);
    HashSingle(s'.clock, 3, 4);
    HashSingle(t.clock, 5, 2);
    ws := [map[]];
    ws := RunOn(ws, Join(3, 0, d), map[3 := e]);
    ws := RunOn(ws, Join(5, 0, d), map[3 := e, 5 := e']);
    ws := RunOn(ws, Write(3, d, 0), map[3 := s, 5 := e']);
    ws := RunOn(ws, Write(3, d, 0), map[3 := s', 5 := e']);
    ws := RunOn(ws, Write(5, d, 0), map[3 := s', 5 := t]);
  }

  lemma RunOn<D(!new)>(ws: seq<Mesh<D>>, a: Move<D>, w: Mesh<D>) returns (longer: seq<Mesh<D>>)
    requires IsPlainRun(ws) && Enabled(ws[|ws| - 1], a) && !a.PruneNode? && !a.JoinFrom? && w == Apply(ws[|ws| - 1], a)
    ensures IsPlainRun(longer) && longer == ws + [w]
  {
    longer := ws + [w];
    OneMove(ws[|ws| - 1], w, a);
    hide Enabled, Apply;
    forall t | 0 <= t < |longer| - 1 ensures PlainStep(longer[t], longer[t + 1]) {
      assert t < |ws| - 1 ==> PlainStep(ws[t], ws[t + 1]);
    }
  }

  lemma StartOfRun<D(!new)>()
    ensures IsPlainRun<D>([map[]])
  {}

  lemma OneMove<D(!new)>(w: Mesh<D>, w': Mesh<D>, a: Move<D>)
    requires Enabled(w, a) && !a.PruneNode? && !a.JoinFrom? && w' == Apply(w, a)
    ensures PlainStep(w, w')
  {}

  /** A write by a replica that knows only itself. */
  lemma OwnWrite<D>(s: Store<D>, i: Key, n: nat, d: D)
    requires s.clock.self == i && s.clock.vectors == if n == 0 then map[] else map[i := VectorBucket(n, 0)]
    requires s.rem == map[]
    ensures
      var s' := Put(s, i, d, 0);
      && s'.clock.self == i && s'.clock.vectors == map[i := VectorBucket(n + 2, 0)] && s'.rem == map[]
      && s'.add.Keys == s.add.Keys + {i}
  {
    if 0 < n {
      assert i in Clocks(s.clock.vectors) && Clocks(s.clock.vectors)[i] == n;
    }
    MaxUnique(Clocks(s.clock.vectors), n);
    PutStamp(s, i, d, 0);
  }

  lemma HashSingle(c: Clock, i: Key, n: nat)
    requires c.vectors == map[i := VectorBucket(n, 0)] && i * (n + 1) < WORD
    ensures ClockHash(c) == i * (n + 1)
  {
    var m: map<Key, nat> := map[i := i * (n + 1)];
    assert Weights(c.vectors) == m;
    SumRemove(m, i);
    assert m - {i} == map[];
  }

  lemma SumPair(m: map<Key, nat>, k: Key, l: Key)
    requires k != l && m.Keys == {k, l}
    ensures Sum(m) == m[k] + m[l]
  {
    SumRemove(m, k);
    SumRemove(m - {k}, l);
    assert m - {k} - {l} == map[];
  }

  // ---- A session that dies after PRESENT ----

  lemma JoinedClocksEqual<D>(a: Store<D>, b: Store<D>, t: nat, u: nat)
    requires Stamped(a) && Stamped(b) && a.clock.highestStale == b.clock.highestStale == 0
    ensures ExitsEarly(Joined(a, b, t, u), Joined(b, a, u, t))
  {
    hide ClockMerge, ClockHash, Tick, Seen;
    var a1, b1 := Ticked(a, t), Ticked(b, u);
    TickKeeps(a, t);
    TickKeeps(b, u);
    TickHighest(a.clock, t);
    TickHighest(b.clock, u);
    assert Stamped(a1) && Stamped(b1);
    ClockMergeAt(a1.clock, Clocks(b1.clock.vectors), t);
    ClockMergeAt(b1.clock, Clocks(a1.clock.vectors), u);
    assert forall k :: At(Clocks(a1.clock.vectors), k) == ClockAt(a1.clock, k);
    assert forall k :: At(Clocks(b1.clock.vectors), k) == ClockAt(b1.clock, k);
    ClocksEqual(Joined(a, b, t, u).clock, Joined(b, a, u, t).clock);
  }

  /** If a session dies once both ends have merged clocks but not maps, the next session between them
      exits early. That is sound exactly when neither end had asked the other for anything. */
  lemma AbortSoundIff<D(!new)>(ws: seq<Mesh<D>>, n: nat, i: Key, j: Key, t: nat, u: nat)
    requires IsPlainRun(ws) && n < |ws| && i in ws[n] && j in ws[n]
    ensures
      var a, b := ws[n][i], ws[n][j];
      var a', b' := Joined(a, b, t, u), Joined(b, a, u, t);
      var wantA, wantB := Wanted(a, b, t, u), Wanted(b, a, u, t);
      && ExitsEarly(a', b')
      && (Same(a'.add, b'.add) && Same(a'.rem, b'.rem) <==>
           wantA.add == map[] && wantA.rem == map[] && wantB.add == map[] && wantB.rem == map[])
  {
    hide IsPlainRun, Inv, ClockHash, ClockMerge, Tick;
    var a, b := ws[n][i], ws[n][j];
    PlainRunInv(ws, n);
    InvStore(ws[n], i);
    InvStore(ws[n], j);
    JoinedClocksEqual(a, b, t, u);
    forall k | k in a.add && k in b.add && a.add[k].vector == b.add[k].vector
      ensures a.add[k].contents == b.add[k].contents
    {
      InvViews(ws[n], i, j, k);
    }
    NothingWanted(a.add, b.add, a.clock, b.clock);
    NothingWanted(a.rem, b.rem, a.clock, b.clock);
  }

  lemma NothingWanted<D>(m: map<Key, Bucket<D>>, n: map<Key, Bucket<D>>, c: Clock, d: Clock)
    requires Seen(m, c) && Seen(n, d)
    requires forall k :: k in m && k in n && m[k].vector == n[k].vector ==> m[k].contents == n[k].contents
    ensures Same(m, n) <==>
      DiffMap(Stamps(m), 0, Stamps(n)) == map[] && DiffMap(Stamps(n), 0, Stamps(m)) == map[]
  {
    var p, q := DiffMap(Stamps(m), 0, Stamps(n)), DiffMap(Stamps(n), 0, Stamps(m));
    if p == map[] && q == map[] {
      forall k ensures Stamp(m, k) == Stamp(n, k) && (k in m <==> k in n) {
        SeenAt(m, c, k);
        SeenAt(n, d, k);
        assert k !in p && k !in q;
      }
    }
  }

  lemma HashOne(c: Clock)
    requires c.vectors == map[1 := VectorBucket(2, 0)]
    ensures ClockHash(c) == 3
  {
    var m: map<Key, nat> := map[1 := 3];
    assert Weights(c.vectors) == m;
    SumRemove(m, 1);
    assert m - {1} == map[];
  }

  /** And it does lose data: replica 1 writes, the session dies, and from then on both exit early while
      replica 2 still lacks the entry. */
  lemma AbortLoses<D>(d: D)
    ensures
      var a, b := Put(Empty(1, 0, d), 1, d, 0), Empty(2, 0, d);
      var a', b' := Joined(a, b, 0, 0), Joined(b, a, 0, 0);
      !ExitsEarly(a, b) && ExitsEarly(a', b') && Contains(a', 1) && !Contains(b', 1)
  {
    hide ClockMerge, ClockHash, Put, Tick;
    var e, b: Store<D> := Empty(1, 0, d), Empty(2, 0, d);
    var a := Put(e, 1, d, 0);
    FirstWrite(d);
    HashOne(a.clock);
    HashNone(b.clock);
    JoinedClocksEqual(a, b, 0, 0);
  }

  lemma HashNone(c: Clock)
    requires c.vectors == map[]
    ensures ClockHash(c) == 0
  {
    assert Weights(c.vectors) == map[];
  }
}
