/** Garbage collection: what Prune removes, and that whole sessions never bring it back. */
module Pruning {
  import opened NatMaps
  import opened Replica
  import opened Causality
  import opened Syncers
  import opened Sessions
  import opened AtomicRuns

  // ---- One Prune ----

  /** Exactly one key set leaves all three maps, and an entry as fresh as any survives. */
  lemma PruneCoherent<D>(s: Store<D>)
    ensures
      var s', gone := Prune(s), Stale(s.clock);
      && s'.add.Keys == s.add.Keys - gone && s'.rem.Keys == s.rem.Keys - gone
      && s'.clock.vectors.Keys == s.clock.vectors.Keys - gone
      && (forall k :: k in s'.add ==> s'.add[k] == s.add[k])
      && (forall k :: k in s'.rem ==> s'.rem[k] == s.rem[k])
      && (s.clock.vectors != map[] ==>
           exists k :: k in s'.clock.vectors && s.clock.vectors[k].lastUpdate == Freshest(s.clock))
  {
    if s.clock.vectors != map[] {
      var k := FreshestKey(s.clock);
      assert k !in Stale(s.clock);
    }
  }

  /** What stays, without naming staleness: an entry goes exactly when some clock entry was updated more than
      the stale time after its own. */
  lemma PruneKeepsIff<D>(s: Store<D>, k: Key)
    ensures
      var late := k in s.clock.vectors
        && exists j :: j in s.clock.vectors && s.clock.vectors[j].lastUpdate > s.clock.vectors[k].lastUpdate + s.clock.staleTime;
      && (k in Prune(s).add <==> k in s.add && !late)
      && (k in Prune(s).rem <==> k in s.rem && !late)
      && (k in Prune(s).clock.vectors <==> k in s.clock.vectors && !late)
  {
    StaleIff(s.clock, k);
    hide Stale;
  }

  lemma FreshestKey(c: Clock) returns (k: Key)
    requires c.vectors != map[]
    ensures k in c.vectors && c.vectors[k].lastUpdate == Freshest(c)
  {
    var m: map<Key, nat> := Updates(c.vectors);
    var any :| any in c.vectors;
    assert any in m && m[any] <= MaxOf(m);
    if MaxOf(m) == 0 {
      k := any;
    } else {
      k :| k in m && m[k] == MaxOf(m);
    }
  }

  /** Pruning again changes nothing. */
  lemma PruneIdempotent<D>(s: Store<D>)
    ensures Prune(Prune(s)) == Prune(s)
  {
    var c, c' := s.clock, ClockPrune(s.clock);
    NothingStale(c);
    assert s.add - Stale(c) - Stale(c') == s.add - Stale(c);
    assert s.rem - Stale(c) - Stale(c') == s.rem - Stale(c);
    assert c'.vectors - Stale(c') == c'.vectors;
    MaxUnique(ClocksOf(c', {}), 0);
  }

  lemma NothingStale(c: Clock)
    ensures Stale(ClockPrune(c)) == {}
  {
    var c' := ClockPrune(c);
    if c.vectors != map[] {
      var k := FreshestKey(c);
      assert k !in Stale(c);
      var m: map<Key, nat> := Updates(c'.vectors);
      assert k in m && m[k] == Freshest(c);
      forall j | j in m ensures m[j] <= Freshest(c) {
        assert Updates(c.vectors)[j] <= Freshest(c);
      }
      MaxUnique(m, Freshest(c));
      assert Freshest(c') == Freshest(c);
    }
  }

  /** highestStale covers everything a Prune removes, and never falls. */
  lemma PruneRecords<D>(s: Store<D>, k: Key)
    requires Stamped(s)
    ensures s.clock.highestStale <= Prune(s).clock.highestStale
    ensures k in Stale(s.clock) ==>
      var h := Prune(s).clock.highestStale;
      Stamp(s.add, k) <= h && Stamp(s.rem, k) <= h && ClockAt(s.clock, k) <= h
  {
    if k in Stale(s.clock) {
      var m := ClocksOf(s.clock, Stale(s.clock));
      assert k in m && m[k] <= MaxOf(m);
    }
  }

  // ---- Pruning in runs with sessions, loads and local writes ----

  ghost predicate AllStamped<D>(w: Mesh<D>) {
    forall i :: i in w ==> w[i].clock.self == i && Stamped(w[i])
  }

  lemma StampedAt<D>(w: Mesh<D>, i: Key)
    requires AllStamped(w) && i in w
    ensures w[i].clock.self == i && Stamped(w[i])
  {}

  lemma PruneStamped<D>(s: Store<D>)
    requires Stamped(s)
    ensures Stamped(Prune(s))
  {
    var c := ClockPrune(s.clock);
    forall k | k in Prune(s).add ensures 1 <= Stamp(Prune(s).add, k) <= ClockAt(c, k) {
      assert 1 <= Stamp(s.add, k) <= ClockAt(s.clock, k);
    }
    forall k | k in Prune(s).rem ensures 1 <= Stamp(Prune(s).rem, k) <= ClockAt(c, k) {
      assert 1 <= Stamp(s.rem, k) <= ClockAt(s.clock, k);
    }
  }

  lemma MoveStamped<D>(w: Mesh<D>, a: Move<D>)
    requires AllStamped(w) && Enabled(w, a)
    ensures AllStamped(Apply(w, a))
  {
    hide Stamped, Synced, Put, Remove, Prune, Merge, MergeMap, ClockMerge;
    var w' := Apply(w, a);
    if !a.Join? && !a.JoinFrom? {
      StampedAt(w, a.i);
    }
    match a
    case Join(i, staleTime, zero) => FreshStamped(i, staleTime, zero);
    case Write(i, data, now) =>
      PutKeeps(w[i], data, now);
      PutSelf(w[i], i, data, now);
    case Leave(i, now) =>
      RemoveKeeps(w[i], now);
      RemoveSelf(w[i], i, now);
    case MarkNode(i, k) => MarkStamped(w[i], k);
    case Sync(i, j, t, u) =>
      StampedAt(w, j);
      SyncStamped(w[i], w[j], t, u);
      SyncStamped(w[j], w[i], u, t);
    case PruneNode(i) =>
      PruneStamped(w[i]);
      PruneSelf(w[i]);
    case JoinFrom(i, j, staleTime, zero, now) =>
      var e: Store<D> := Empty(i, staleTime, zero);
      FreshStamped(i, staleTime, zero);
      MergeStamped(e, Snapshot(w[j].add, w[j].rem), now);
      MergeSelf(e, Snapshot(w[j].add, w[j].rem), now);
  }

  lemma FreshStamped<D>(i: Key, staleTime: nat, zero: D)
    ensures Stamped(Empty(i, staleTime, zero))
  {}

  lemma PutSelf<D>(s: Store<D>, k: Key, d: D, now: nat)
    ensures Put(s, k, d, now).clock.self == s.clock.self
    ensures Put(s, k, d, now).clock.highestStale == s.clock.highestStale
    ensures forall j :: j != k ==> Stamp(Put(s, k, d, now).add, j) == Stamp(s.add, j)
    ensures Put(s, k, d, now).rem == s.rem
  {}

  lemma RemoveSelf<D>(s: Store<D>, k: Key, now: nat)
    ensures Remove(s, k, now).clock.self == s.clock.self
    ensures Remove(s, k, now).clock.highestStale == s.clock.highestStale
    ensures forall j :: j != k ==> Stamp(Remove(s, k, now).rem, j) == Stamp(s.rem, j)
    ensures Remove(s, k, now).add == s.add
  {}

  lemma PruneSelf<D>(s: Store<D>)
    ensures Prune(s).clock.self == s.clock.self
  {}

  lemma MergeSelf<D>(s: Store<D>, snap: Snapshot<D>, now: nat)
    ensures Merge(s, snap, now).clock.self == s.clock.self
    ensures Merge(s, snap, now).clock.highestStale == s.clock.highestStale
  {}

  lemma MarkStamped<D>(s: Store<D>, k: Key)
    requires Stamped(s)
    ensures Stamped(Mark(s, k))
  {}

  lemma SyncStamped<D>(s: Store<D>, peer: Store<D>, now: nat, peerNow: nat)
    requires Stamped(s)
    ensures Stamped(Synced(s, peer, now, peerNow))
    ensures Synced(s, peer, now, peerNow).clock.self == s.clock.self
  {
    hide Synced;
    SessionStamped(s, peer, now, peerNow);
    SessionClock(s, peer, now, peerNow);
  }

  lemma {:induction false} RunStamped<D(!new)>(ws: seq<Mesh<D>>, t: nat)
    requires IsRun(ws) && t < |ws|
    ensures AllStamped(ws[t])
  {
    hide AllStamped;
    if t == 0 {
      NoneStamped(ws[0]);
    } else {
      RunStamped(ws, t - 1);
      assert Step(ws[t - 1], ws[t - 1 + 1]);
      var a :| AtomicRuns.Enabled(ws[t - 1], a) && ws[t] == AtomicRuns.Apply(ws[t - 1], a);
      MoveStamped(ws[t - 1], a);
    }
  }

  lemma NoneStamped<D>(w: Mesh<D>)
    requires w == map[]
    ensures AllStamped(w)
  {}

  /** Replica s holds nothing at k stamped at or below h, and refuses to ask for it. */
  ghost predicate Barred<D>(s: Store<D>, k: Key, h: nat) {
    && h <= s.clock.highestStale
    && (k in s.add ==> h < s.add[k].vector)
    && (k in s.rem ==> h < s.rem[k].vector)
  }

  lemma SyncBarred<D>(s: Store<D>, peer: Store<D>, now: nat, peerNow: nat, k: Key, h: nat)
    requires Stamped(s) && Barred(s, k, h)
    ensures Barred(Synced(s, peer, now, peerNow), k, h)
  {
    hide Synced, MergeAbove, Seen;
    if ExitsEarly(s, peer) {
      SyncedEarly(s, peer, now, peerNow);
    } else {
      SessionMaps(s, peer, now, peerNow);
      SessionClock(s, peer, now, peerNow);
      MergeAboveAt(s.add, peer.add, s.clock.highestStale);
      MergeAboveAt(s.rem, peer.rem, s.clock.highestStale);
    }
  }

  lemma MoveBarred<D>(w: Mesh<D>, a: Move<D>, i: Key, k: Key, h: nat)
    requires AllStamped(w) && AtomicRuns.Enabled(w, a) && i in w && k != i && Barred(w[i], k, h)
    ensures i in AtomicRuns.Apply(w, a) && Barred(AtomicRuns.Apply(w, a)[i], k, h)
  {
    hide AllStamped, Stamped, Synced, Put, Remove, Prune;
    StampedAt(w, i);
    match a
    case Write(j, data, now) =>
      PutSelf(w[j], j, data, now);
      PutDomain(w[j], j, data, now);
      assert Stamp(Put(w[j], j, data, now).add, k) == Stamp(w[j].add, k) || j == k;
    case Leave(j, now) =>
      RemoveSelf(w[j], j, now);
      RemoveDomain(w[j], j, now);
      assert Stamp(Remove(w[j], j, now).rem, k) == Stamp(w[j].rem, k) || j == k;
    case Sync(j, l, t, u) =>
      if i == j {
        SyncBarred(w[i], w[l], t, u, k, h);
      } else if i == l {
        SyncBarred(w[i], w[j], u, t, k, h);
      }
    case PruneNode(j) =>
      if i == j {
        PruneRecords(w[i], k);
        PruneCoherent(w[i]);
      }
    case _ =>
  }

  lemma PutDomain<D>(s: Store<D>, k: Key, d: D, now: nat)
    ensures Put(s, k, d, now).add.Keys == s.add.Keys + {k}
  {}

  lemma RemoveDomain<D>(s: Store<D>, k: Key, now: nat)
    ensures Remove(s, k, now).rem.Keys == s.rem.Keys + {k}
  {}

  lemma {:induction false} RunBarred<D(!new)>(ws: seq<Mesh<D>>, t: nat, u: nat, i: Key, k: Key, h: nat)
    requires IsRun(ws) && t <= u < |ws| && i in ws[t] && k != i && Barred(ws[t][i], k, h)
    ensures i in ws[u] && Barred(ws[u][i], k, h)
  {
    hide AllStamped, Barred, AtomicRuns.Enabled, AtomicRuns.Apply;
    if t < u {
      RunBarred(ws, t, u - 1, i, k, h);
      RunStamped(ws, u - 1);
      assert Step(ws[u - 1], ws[u - 1 + 1]);
      var a :| AtomicRuns.Enabled(ws[u - 1], a) && ws[u] == AtomicRuns.Apply(ws[u - 1], a);
      MoveBarred(ws[u - 1], a, i, k, h);
    }
  }

  /** In every run of own-key writes, loads, prunes and whole sessions: an entry of another replica that is
      pruned had a stamp at or below the recorded highestStale, and from then on the replica never
      holds a version of it stamped at or below that mark. */
  lemma PrunedStaysPruned<D(!new)>(ws: seq<Mesh<D>>, t: nat, u: nat, i: Key, k: Key)
    requires IsRun(ws) && t < u < |ws| && i in ws[t]
    requires ws[t + 1] == AtomicRuns.Apply(ws[t], PruneNode(i)) && k in Stale(ws[t][i].clock) && k != i
    ensures i in ws[t + 1] && i in ws[u]
    ensures
      var h := ws[t + 1][i].clock.highestStale;
      && Stamp(ws[t][i].add, k) <= h && Stamp(ws[t][i].rem, k) <= h
      && Barred(ws[u][i], k, h)
  {
    hide IsRun, AllStamped;
    var s := ws[t][i];
    RunStamped(ws, t);
    StampedAt(ws[t], i);
    PruneRecords(s, k);
    PruneCoherent(s);
    RunBarred(ws, t + 1, u, i, k, Prune(s).clock.highestStale);
  }
}
