/** Once writes stop: sessions that carry every replica's news to every other leave all replicas the same. */
module Spreading {
  import opened NatMaps
  import opened Replica
  import opened Causality
  import opened Syncers
  import opened Convergence
  import opened Sessions
  import opened AtomicRuns

  /** Who has heard from k, directly or not, through these sessions. */
  function Informed<D>(k: Key, moves: seq<Move<D>>): set<Key> {
    if moves == [] then {k} else
      Told(Informed(k, moves[..|moves| - 1]), moves[|moves| - 1])
  }

  /** From `start` on the run makes these moves: sessions, and marks of unreachable peers. */
  ghost predicate Quiet<D>(ws: seq<Mesh<D>>, start: nat, moves: seq<Move<D>>) {
    && start + |moves| < |ws|
    && forall s :: 0 <= s < |moves| ==>
      && (moves[s].Sync? || moves[s].MarkNode?) && Enabled(ws[start + s], moves[s])
      && ws[start + s + 1] == Apply(ws[start + s], moves[s])
  }

  /** No two clocks that meet in a session collide. */
  ghost predicate Unmixed<D>(ws: seq<Mesh<D>>, start: nat, moves: seq<Move<D>>)
    requires Quiet(ws, start, moves)
  {
    forall s :: 0 <= s < |moves| && moves[s].Sync? ==> NoCollision(ws[start + s][moves[s].i], ws[start + s][moves[s].j])
  }

  /** Replica i is level with the owner of k. */
  ghost predicate Level<D>(w: Mesh<D>, i: Key, k: Key) {
    && i in w && k in w
    && Stamp(w[i].add, k) == Stamp(w[k].add, k) && Stamp(w[i].rem, k) == Stamp(w[k].rem, k)
  }

  lemma BehindOwner<D>(w: Mesh<D>, i: Key, k: Key)
    requires Inv(w) && i in w && k in w
    ensures Stamp(w[i].add, k) <= Stamp(w[k].add, k) && Stamp(w[i].rem, k) <= Stamp(w[k].rem, k)
  {
    hide Inv;
    InvViews(w, i, k, k);
  }

  /** A session leaves both its ends the greater stamps. */
  lemma SessionStamps<D>(w: Mesh<D>, i: Key, j: Key, k: Key, now: nat, peerNow: nat)
    requires Inv(w) && i in w && j in w && !ExitsEarly(w[i], w[j])
    ensures
      var s' := Synced(w[i], w[j], now, peerNow);
      && Stamp(s'.add, k) == Max(Stamp(w[i].add, k), Stamp(w[j].add, k))
      && Stamp(s'.rem, k) == Max(Stamp(w[i].rem, k), Stamp(w[j].rem, k))
  {
    hide Inv, Synced, MergeAbove;
    InvStore(w, i);
    SessionMaps(w[i], w[j], now, peerNow);
    MergeAboveAt(w[i].add, w[j].add, 0);
    MergeAboveAt(w[i].rem, w[j].rem, 0);
  }

  /** After a session both ends are level with k's owner if one was, and the owner is where it was. */
  lemma SessionLevels<D(!new)>(ws: seq<Mesh<D>>, n: nat, a: Move<D>, k: Key)
    requires IsPlainRun(ws) && n < |ws| && a.Sync? && Enabled(ws[n], a) && k in ws[n]
    requires NoCollision(ws[n][a.i], ws[n][a.j]) && (Level(ws[n], a.i, k) || Level(ws[n], a.j, k))
    ensures
      var w, w' := ws[n], Apply(ws[n], a);
      && Level(w', a.i, k) && Level(w', a.j, k)
      && Stamp(w'[k].add, k) == Stamp(w[k].add, k) && Stamp(w'[k].rem, k) == Stamp(w[k].rem, k)
  {
    hide Inv, IsPlainRun, NoCollision, Synced, ClockHash;
    var w := ws[n];
    PlainRunInv(ws, n);
    BehindOwner(w, a.i, k);
    BehindOwner(w, a.j, k);
    if ExitsEarly(w[a.i], w[a.j]) {
      EarlyExitSound(ws, n, a.i, a.j);
      SyncedEarly(w[a.i], w[a.j], a.t, a.u);
      SyncedEarly(w[a.j], w[a.i], a.u, a.t);
      SameStamps(w[a.i], w[a.j], k);
    } else {
      SessionStamps(w, a.i, a.j, k, a.t, a.u);
      SessionStamps(w, a.j, a.i, k, a.u, a.t);
    }
  }

  lemma SameStamps<D>(s: Store<D>, s': Store<D>, k: Key)
    requires Same(s.add, s'.add) && Same(s.rem, s'.rem)
    ensures Stamp(s.add, k) == Stamp(s'.add, k) && Stamp(s.rem, k) == Stamp(s'.rem, k)
  {}

  /** A session that k's news takes no part in leaves k's owner where it was all the same. */
  lemma OwnerStays<D(!new)>(ws: seq<Mesh<D>>, n: nat, a: Move<D>, k: Key)
    requires IsPlainRun(ws) && n < |ws| && a.Sync? && Enabled(ws[n], a) && k in ws[n]
    requires NoCollision(ws[n][a.i], ws[n][a.j])
    ensures
      var w, w' := ws[n], Apply(ws[n], a);
      k in w' && Stamp(w'[k].add, k) == Stamp(w[k].add, k) && Stamp(w'[k].rem, k) == Stamp(w[k].rem, k)
  {
    hide Inv, IsPlainRun, NoCollision, Synced;
    if k == a.i || k == a.j {
      SessionLevels(ws, n, a, k);
    }
  }

  ghost predicate AllLevel<D>(w: Mesh<D>, who: set<Key>, k: Key) {
    k in w && forall i :: i in who ==> Level(w, i, k)
  }

  function Told<D>(who: set<Key>, a: Move<D>): set<Key> {
    if a.Sync? && (a.i in who || a.j in who) then who + {a.i, a.j} else who
  }

  /** k's own entry is the same in both. */
  ghost predicate OwnerKept<D>(w: Mesh<D>, w': Mesh<D>, k: Key) {
    k in w && k in w' && Stamp(w'[k].add, k) == Stamp(w[k].add, k) && Stamp(w'[k].rem, k) == Stamp(w[k].rem, k)
  }

  lemma SyncTells<D(!new)>(ws: seq<Mesh<D>>, n: nat, a: Move<D>, k: Key, who: set<Key>)
    requires IsPlainRun(ws) && n < |ws| && a.Sync? && Enabled(ws[n], a) && NoCollision(ws[n][a.i], ws[n][a.j])
    requires AllLevel(ws[n], who, k)
    ensures AllLevel(Apply(ws[n], a), Told(who, a), k) && OwnerKept(ws[n], Apply(ws[n], a), k)
  {
    hide IsPlainRun, NoCollision, Synced;
    OwnerStays(ws, n, a, k);
    if a.i in who || a.j in who {
      SessionLevels(ws, n, a, k);
    }
  }

  lemma MarkTells<D>(w: Mesh<D>, a: Move<D>, k: Key, who: set<Key>)
    requires a.MarkNode? && Enabled(w, a) && AllLevel(w, who, k)
    ensures AllLevel(Apply(w, a), who, k) && OwnerKept(w, Apply(w, a), k)
  {}

  lemma MoveAt<D>(ws: seq<Mesh<D>>, start: nat, moves: seq<Move<D>>, s: nat)
    requires Quiet(ws, start, moves) && Unmixed(ws, start, moves) && s < |moves|
    ensures
      var n, a := start + s, moves[s];
      && n + 1 < |ws| && (a.Sync? || a.MarkNode?) && Enabled(ws[n], a) && ws[n + 1] == Apply(ws[n], a)
      && (a.Sync? ==> NoCollision(ws[n][a.i], ws[n][a.j]))
  {
    hide Enabled, Apply, NoCollision;
  }

  lemma InformedNext<D>(k: Key, moves: seq<Move<D>>, s: nat)
    requires s < |moves|
    ensures Informed(k, moves[..s + 1]) == Told(Informed(k, moves[..s]), moves[s])
  {
    assert moves[..s + 1][..s] == moves[..s];
  }

  /** Whoever has heard from k is level with it, and k is where it was. */
  lemma {:induction false} InformedAreLevel<D(!new)>(ws: seq<Mesh<D>>, start: nat, moves: seq<Move<D>>, k: Key, s: nat)
    requires IsPlainRun(ws) && Quiet(ws, start, moves) && Unmixed(ws, start, moves) && s <= |moves|
    requires start + s < |ws| && k in ws[start]
    ensures AllLevel(ws[start + s], Informed(k, moves[..s]), k) && OwnerKept(ws[start], ws[start + s], k)
  {
    hide IsPlainRun, NoCollision, Apply, Quiet, Unmixed, Enabled;
    if s == 0 {
      assert moves[..0] == [];
    } else {
      hide AllLevel, Informed, Told;
      var n, a := start + s - 1, moves[s - 1];
      MoveAt(ws, start, moves, s - 1);
      InformedNext(k, moves, s - 1);
      InformedAreLevel(ws, start, moves, k, s - 1);
      var who := Informed(k, moves[..s - 1]);
      if a.Sync? {
        SyncTells(ws, n, a, k, who);
      } else {
        MarkTells(ws[n], a, k, who);
        TellsNobody(who, a);
      }
    }
  }

  lemma TellsNobody<D>(who: set<Key>, a: Move<D>)
    requires !a.Sync?
    ensures Told(who, a) == who
  {}

  /** Nothing is known of a key whose owner has never joined. */
  lemma NothingElse<D>(w: Mesh<D>, i: Key, j: Key, k: Key)
    requires Inv(w) && i in w && j in w && k !in w
    ensures ViewOf(w[i], k) == ViewOf(w[j], k)
  {
    hide Inv;
    InvViews(w, i, j, k);
    InvViews(w, j, i, k);
    SameClockSameView(ViewOf(w[i], k), ViewOf(w[j], k));
  }

  lemma LevelViews<D>(w: Mesh<D>, i: Key, j: Key, k: Key)
    requires Inv(w) && Level(w, i, k) && Level(w, j, k)
    ensures
      var v, v' := ViewOf(w[i], k), ViewOf(w[j], k);
      v.add == v'.add && v.rem == v'.rem && v.data == v'.data
  {
    hide Inv;
    InvViews(w, i, j, k);
  }

  lemma {:induction false} SameReplicas<D>(w: Mesh<D>, w': Mesh<D>, a: Move<D>)
    requires Enabled(w, a) && (a.Sync? || a.MarkNode?) && w' == Apply(w, a)
    ensures w'.Keys == w.Keys
  {
    hide Synced;
  }

  lemma {:induction false} SameMembers<D>(ws: seq<Mesh<D>>, start: nat, moves: seq<Move<D>>, s: nat)
    requires Quiet(ws, start, moves) && Unmixed(ws, start, moves) && s <= |moves| && start + s < |ws|
    ensures ws[start + s].Keys == ws[start].Keys
  {
    hide Apply, NoCollision, Enabled, Quiet, Unmixed;
    if 0 < s {
      MoveAt(ws, start, moves, s - 1);
      SameMembers(ws, start, moves, s - 1);
      SameReplicas(ws[start + s - 1], ws[start + s], moves[s - 1]);
    }
  }

  /** The sessions carry each replica's news to every other. */
  predicate Reaches<D>(who: set<Key>, moves: seq<Move<D>>) {
    forall k, i :: k in who && i in who ==> i in Informed(k, moves)
  }

  /** In every run: if from some moment on there are only whole sessions and marks, no two clocks that meet
      collide, and the sessions carry each replica's news to every other, then in the end all replicas have
      the same added and removed entries: at every key, those its owner had when the writes stopped. */
  lemma QuietMeshAgrees<D(!new)>(ws: seq<Mesh<D>>, start: nat, moves: seq<Move<D>>, i: Key, j: Key)
    requires IsPlainRun(ws) && start + |moves| < |ws| && Quiet(ws, start, moves) && Unmixed(ws, start, moves)
    requires Reaches(ws[start].Keys, moves) && i in ws[start] && j in ws[start]
    ensures
      var w := ws[start + |moves|];
      && i in w && j in w && Same(w[i].add, w[j].add) && Same(w[i].rem, w[j].rem)
      && forall k :: k in ws[start] ==>
           Stamp(w[i].add, k) == Stamp(ws[start][k].add, k) && Stamp(w[i].rem, k) == Stamp(ws[start][k].rem, k)
  {
    hide IsPlainRun, Quiet, Unmixed, Inv, StoreOk, Reaches, Same, AgreeOn, Informed, Stamp, Stamped;
    var w := ws[start + |moves|];
    SameMembers(ws, start, moves, |moves|);
    PlainRunInv(ws, start + |moves|);
    InvStore(w, i);
    InvStore(w, j);
    forall k ensures AgreeOn(ws[start], w, i, j, k) {
      ReachesBoth(ws[start].Keys, moves, i, j, k);
      AgreeAt(ws, start, moves, i, j, k);
    }
    AgreeOnAll(ws[start], w, i, j);
  }

  /** Replicas i and j hold the same at k, and as much as its owner held in the world before. */
  ghost predicate AgreeOn<D>(before: Mesh<D>, w: Mesh<D>, i: Key, j: Key, k: Key)
    requires i in w && j in w
  {
    var v, v' := ViewOf(w[i], k), ViewOf(w[j], k);
    && v.add == v'.add && v.rem == v'.rem && v.data == v'.data
    && (k in before ==> v.add == Stamp(before[k].add, k) && v.rem == Stamp(before[k].rem, k))
  }

  lemma AgreeOnAll<D>(before: Mesh<D>, w: Mesh<D>, i: Key, j: Key)
    requires i in w && j in w && StoreOk(w[i], i) && StoreOk(w[j], j) && forall k :: AgreeOn(before, w, i, j, k)
    ensures Same(w[i].add, w[j].add) && Same(w[i].rem, w[j].rem)
    ensures forall k :: k in before ==>
      Stamp(w[i].add, k) == Stamp(before[k].add, k) && Stamp(w[i].rem, k) == Stamp(before[k].rem, k)
  {
    hide StoreOk;
    forall k
      ensures
        var v, v' := ViewOf(w[i], k), ViewOf(w[j], k);
        v.add == v'.add && v.rem == v'.rem && v.data == v'.data
      ensures k in before ==> Stamp(w[i].add, k) == Stamp(before[k].add, k) && Stamp(w[i].rem, k) == Stamp(before[k].rem, k)
    {
      assert AgreeOn(before, w, i, j, k);
    }
    hide AgreeOn;
    SameViews(w[i], w[j], i, j);
  }

  lemma ReachesBoth<D>(who: set<Key>, moves: seq<Move<D>>, i: Key, j: Key, k: Key)
    requires Reaches(who, moves) && i in who && j in who
    ensures k in who ==> i in Informed(k, moves) && j in Informed(k, moves)
  {}

  lemma AgreeAt<D(!new)>(ws: seq<Mesh<D>>, start: nat, moves: seq<Move<D>>, i: Key, j: Key, k: Key)
    requires IsPlainRun(ws) && Quiet(ws, start, moves) && Unmixed(ws, start, moves) && start + |moves| < |ws|
    requires k in ws[start] ==> i in Informed(k, moves) && j in Informed(k, moves)
    requires i in ws[start + |moves|] && j in ws[start + |moves|] && ws[start + |moves|].Keys == ws[start].Keys
    ensures AgreeOn(ws[start], ws[start + |moves|], i, j, k)
  {
    hide IsPlainRun, Quiet, Unmixed, Inv, AllLevel, Informed;
    var w := ws[start + |moves|];
    PlainRunInv(ws, start + |moves|);
    if k in ws[start] {
      assert moves[..|moves|] == moves;
      InformedAreLevel(ws, start, moves, k, |moves|);
      BothLevel(w, Informed(k, moves), i, j, k);
      LevelViews(w, i, j, k);
    } else {
      NothingElse(w, i, j, k);
    }
  }

  lemma BothLevel<D>(w: Mesh<D>, who: set<Key>, i: Key, j: Key, k: Key)
    requires AllLevel(w, who, k) && i in who && j in who
    ensures Level(w, i, k) && Level(w, j, k)
  {}
}
