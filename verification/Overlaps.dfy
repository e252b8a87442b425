/** Sessions that overlap or are cut short on one side: how equal clocks come to hide different stores. */
module Overlaps {
  import opened NatMaps
  import opened Replica
  import opened Causality
  import opened Gossip
  import opened Syncers
  import opened Convergence
  import opened Sessions
  import AtomicRuns

  lemma JoinedStamped<D>(s: Store<D>, peer: Store<D>, now: nat, peerNow: nat)
    requires Stamped(s)
    ensures Stamped(Joined(s, peer, now, peerNow))
  {
    hide Joined, Seen;
    JoinedClock(s, peer, now, peerNow);
    RaisedClockStamped(s, Joined(s, peer, now, peerNow).clock);
    JoinedMaps(s, peer, now, peerNow);
  }

  lemma JoinedMaps<D>(s: Store<D>, peer: Store<D>, now: nat, peerNow: nat)
    ensures Joined(s, peer, now, peerNow) == s.(clock := Joined(s, peer, now, peerNow).clock)
  {}

  // ---- Two sessions at once at one replica ----

  /** Replica b while it is past PRESENT with a. */
  ghost function Midway<D>(b: Store<D>, a: Store<D>, tb: nat, ta: nat): Store<D> {
    Joined(b, a, tb, ta)
  }

  /** Replica b once it has run a whole session with c in between, and then merged a's answer. */
  ghost function Resumed<D>(b: Store<D>, a: Store<D>, c: Store<D>, tb: nat, ta: nat, tc: nat): Store<D> {
    Replica.Merge(Synced(Midway(b, a, tb, ta), c, tb, tc), Answer(b, a, tb, ta), tb)
  }

  lemma ResumedClock<D>(b: Store<D>, a: Store<D>, c: Store<D>, tb: nat, ta: nat, tc: nat)
    requires Stamped(a) && Stamped(b) && Stamped(c)
    requires a.clock.highestStale == b.clock.highestStale == c.clock.highestStale == 0
    requires !ExitsEarly(Midway(b, a, tb, ta), c)
    ensures ExitsEarly(Resumed(b, a, c, tb, ta, tc), Synced(c, Midway(b, a, tb, ta), tc, tb))
  {
    hide Stamped, Synced, Ticked, Joined, Answer, Replica.Merge, ClockHash;
    var b1 := Midway(b, a, tb, ta);
    JoinedStamped(b, a, tb, ta);
    JoinedIsMax(b, a, tb, ta);
    SessionJoinsClocks(b1, c, tb, tc);
    SessionJoinsClocks(c, b1, tc, tb);
    var b2, c2 := Synced(b1, c, tb, tc), Synced(c, b1, tc, tb);
    AtomicRuns.StampedPositive(b1);
    SessionClock(b1, c, tb, tc);
    MergeClockAt(b2, Answer(b, a, tb, ta), tb);
    AnswerStamps(b, a, tb, ta);
    forall k
      ensures Stamp(a.add, k) <= ClockAt(b2.clock, k) && Stamp(a.rem, k) <= ClockAt(b2.clock, k)
    {
      TickedCovers(a, ta, k);
    }
    ClocksEqual(Resumed(b, a, c, tb, ta, tc).clock, c2.clock);
  }

  /** The stamps b and c end with. */
  lemma ResumedMap<D>(a: map<Key, Bucket<D>>, b: map<Key, Bucket<D>>, c: map<Key, Bucket<D>>, zero: D)
    ensures
      var wanted := DiffMap(Stamps(b), 0, Stamps(a));
      var b3, c2 := MergeMap(MergeAbove(b, c, 0), SaveKeys(a, wanted.Keys, zero)), MergeAbove(c, b, 0);
      (forall k :: Stamp(b3, k) == Max(Stamp(a, k), Max(Stamp(b, k), Stamp(c, k))))
      && (forall k :: Stamp(c2, k) == Max(Stamp(b, k), Stamp(c, k)))
  {
    hide MergeAbove, MergeMap;
    var wanted := DiffMap(Stamps(b), 0, Stamps(a));
    MergeAboveAt(b, c, 0);
    MergeAboveAt(c, b, 0);
    MergeMapAt(MergeAbove(b, c, 0), SaveKeys(a, wanted.Keys, zero));
  }

  lemma ResumedStamps<D>(b: Store<D>, a: Store<D>, c: Store<D>, tb: nat, ta: nat, tc: nat)
    requires b.clock.highestStale == c.clock.highestStale == 0 && !ExitsEarly(Midway(b, a, tb, ta), c)
    requires Stamped(b)
    ensures
      var b3, c2 := Resumed(b, a, c, tb, ta, tc), Synced(c, Midway(b, a, tb, ta), tc, tb);
      && (forall k :: Stamp(b3.add, k) == Max(Stamp(a.add, k), Max(Stamp(b.add, k), Stamp(c.add, k))))
      && (forall k :: Stamp(b3.rem, k) == Max(Stamp(a.rem, k), Max(Stamp(b.rem, k), Stamp(c.rem, k))))
      && (forall k :: Stamp(c2.add, k) == Max(Stamp(b.add, k), Stamp(c.add, k)))
      && (forall k :: Stamp(c2.rem, k) == Max(Stamp(b.rem, k), Stamp(c.rem, k)))
  {
    hide Stamped, Synced, ClockHash, ClockMerge, Tick, MergeMap, MergeAbove, SaveKeys, DiffMap;
    var b1 := Midway(b, a, tb, ta);
    JoinedIsMax(b, a, tb, ta);
    SessionMaps(b1, c, tb, tc);
    SessionMaps(c, b1, tc, tb);
    ResumedMap(a.add, b.add, c.add, a.zero);
    ResumedMap(a.rem, b.rem, c.rem, false);
  }

  /** Suppose b, past PRESENT with a, runs a whole session with c and then finishes with a. Then b and c exit
      early from now on, and c has everything b has exactly when b and c between them already had all a had. */
  lemma OverlapSoundIff<D>(b: Store<D>, a: Store<D>, c: Store<D>, tb: nat, ta: nat, tc: nat)
    requires Stamped(a) && Stamped(b) && Stamped(c)
    requires a.clock.highestStale == b.clock.highestStale == c.clock.highestStale == 0
    requires !ExitsEarly(b, a) && !ExitsEarly(Midway(b, a, tb, ta), c)
    ensures
      var b3, c2 := Resumed(b, a, c, tb, ta, tc), Synced(c, Midway(b, a, tb, ta), tc, tb);
      && ExitsEarly(b3, c2)
      && ((forall k :: Stamp(b3.add, k) == Stamp(c2.add, k) && Stamp(b3.rem, k) == Stamp(c2.rem, k)) <==>
          (forall k :: Stamp(a.add, k) <= Max(Stamp(b.add, k), Stamp(c.add, k))
                    && Stamp(a.rem, k) <= Max(Stamp(b.rem, k), Stamp(c.rem, k))))
  {
    hide Stamped, Synced, Resumed, Midway, ClockHash;
    ResumedClock(b, a, c, tb, ta, tc);
    ResumedStamps(b, a, c, tb, ta, tc);
  }

  /** And it does lose data: replica 1 has written, 2 and 3 are new, and 3 ends without the entry that 2 has. */
  lemma OverlapLoses<D>(d: D)
    ensures
      var a, b, c := Put(Empty(1, 0, d), 1, d, 0), Empty(2, 0, d), Empty(3, 0, d);
      var b3, c2 := Resumed(b, a, c, 0, 0, 0), Synced(c, Midway(b, a, 0, 0), 0, 0);
      !ExitsEarly(b, a) && !ExitsEarly(Midway(b, a, 0, 0), c) && ExitsEarly(b3, c2)
      && Stamp(b3.add, 1) == 1 && Stamp(c2.add, 1) == 0
  {
    hide Synced, Resumed, Midway, ClockHash, Put;
    var b, c: Store<D> := Empty(2, 0, d), Empty(3, 0, d);
    FirstWrite(d);
    var a := Put(Empty(1, 0, d), 1, d, 0);
    AtomicRuns.HashOne(a.clock);
    AtomicRuns.HashNone(b.clock);
    AtomicRuns.HashNone(c.clock);
    MidwayHash(a, b);
    ResumedClock(b, a, c, 0, 0, 0);
    ResumedStamps(b, a, c, 0, 0, 0);
  }

  lemma MidwayHash<D>(a: Store<D>, b: Store<D>)
    requires a.clock == Clock(1, 0, map[1 := VectorBucket(2, 0)], 0)
    requires b.clock == Clock(2, 0, map[], 0)
    ensures ClockHash(Midway(b, a, 0, 0).clock) == 8
  {
    assert 1 in Clocks(a.clock.vectors) && Clocks(a.clock.vectors)[1] == 2;
    MaxUnique(Clocks(a.clock.vectors), 2);
    MaxUnique(Clocks(b.clock.vectors), 0);
    var c := Midway(b, a, 0, 0).clock;
    assert c.vectors == map[1 := VectorBucket(3, 0), 2 := VectorBucket(1, 0)];
    var m: map<Key, nat> := map[1 := 4, 2 := 4];
    assert Weights(c.vectors) == m;
    AtomicRuns.SumPair(m, 1, 2);
  }

  // ---- A session that dies once one end has merged ----

  lemma NothingAsked<D>(m: map<Key, Bucket<D>>, n: map<Key, Bucket<D>>, c: Clock, d: Clock)
    requires Seen(m, c) && Seen(n, d)
    ensures Same(MergeAbove(m, n, 0), n) ==> DiffMap(Stamps(n), 0, Stamps(m)) == map[]
    ensures Coherent(m, n) && DiffMap(Stamps(n), 0, Stamps(m)) == map[] ==> Same(MergeAbove(m, n, 0), n)
  {
    var wanted := DiffMap(Stamps(n), 0, Stamps(m));
    var l := MergeAbove(m, n, 0);
    MergeAboveAt(m, n, 0);
    hide MergeAbove;
    if wanted != map[] {
      var k :| k in wanted;
      assert Stamp(l, k) >= Stamp(m, k) > Stamp(n, k);
      assert !Same(l, n);
    } else if Coherent(m, n) {
      forall k ensures k in l <==> k in n {
        assert k !in wanted;
        AtomicRuns.SeenAt(m, c, k);
        AtomicRuns.SeenAt(n, d, k);
      }
      forall k | k in l ensures l[k].vector == n[k].vector && l[k].contents == n[k].contents {
        assert k !in wanted;
      }
    }
  }

  lemma OneSidedClock<D>(a: Store<D>, b: Store<D>, t: nat, u: nat)
    requires Stamped(a) && Stamped(b) && a.clock.highestStale == b.clock.highestStale == 0 && !ExitsEarly(a, b)
    ensures ExitsEarly(Synced(a, b, t, u), Joined(b, a, u, t))
  {
    hide Stamped, Synced, Ticked, Joined, ClockHash;
    SessionJoinsClocks(a, b, t, u);
    JoinedIsMax(b, a, u, t);
    ClocksEqual(Synced(a, b, t, u).clock, Joined(b, a, u, t).clock);
  }

  /** If a session dies after one end has merged the maps and before the other has, the next session exits
      early, and that is sound exactly when the end left behind had asked for nothing. */
  lemma OneSidedAbortSoundIff<D(!new)>(ws: seq<AtomicRuns.Mesh<D>>, n: nat, i: Key, j: Key, t: nat, u: nat)
    requires AtomicRuns.IsPlainRun(ws) && n < |ws| && i in ws[n] && j in ws[n] && !ExitsEarly(ws[n][i], ws[n][j])
    ensures
      var a, b := ws[n][i], ws[n][j];
      var a', b' := Synced(a, b, t, u), Joined(b, a, u, t);
      var want := Wanted(b, a, u, t);
      && ExitsEarly(a', b')
      && (Same(a'.add, b'.add) && Same(a'.rem, b'.rem) <==> want.add == map[] && want.rem == map[])
  {
    hide AtomicRuns.IsPlainRun, AtomicRuns.Inv, ClockHash, ClockMerge, Tick, Synced, MergeAbove;
    var a, b := ws[n][i], ws[n][j];
    AtomicRuns.PlainRunInv(ws, n);
    AtomicRuns.InvStore(ws[n], i);
    AtomicRuns.InvStore(ws[n], j);
    OneSidedClock(a, b, t, u);
    SessionMaps(a, b, t, u);
    forall k | k in a.add && k in b.add && a.add[k].vector == b.add[k].vector
      ensures a.add[k].contents == b.add[k].contents
    {
      AtomicRuns.InvViews(ws[n], i, j, k);
    }
    NothingAsked(a.add, b.add, a.clock, b.clock);
    NothingAsked(a.rem, b.rem, a.clock, b.clock);
  }
}
