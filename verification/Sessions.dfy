/** What one whole session does to two stores, for any stores and any stale bounds. */
module Sessions {
  import opened NatMaps
  import opened Replica
  import opened Causality
  import opened Syncers
  import opened Convergence

  /** The newer of each entry, where n's entries count only above the stale bound h. */
  function MergeAbove<D>(m: map<Key, Bucket<D>>, n: map<Key, Bucket<D>>, h: nat): map<Key, Bucket<D>> {
    map k | k in m.Keys + n.Keys && (k in m || h < n[k].vector) ::
      if k in n && h < n[k].vector && Stamp(m, k) < n[k].vector then n[k] else m[k]
  }

  /** Asking for the difference, answering with the live buckets and merging the answer is a merge of the
      peer's whole map above the stale bound. */
  lemma DeltaIsWhole<D>(m: map<Key, Bucket<D>>, n: map<Key, Bucket<D>>, h: nat, zero: D)
    ensures
      var wanted := DiffMap(Stamps(m), h, Stamps(n));
      MergeMap(m, SaveKeys(n, wanted.Keys, zero)) == MergeAbove(m, n, h)
  {}

  /** The maps a session leaves. Nothing is asked of the two stores. */
  lemma SessionMaps<D>(s: Store<D>, peer: Store<D>, now: nat, peerNow: nat)
    requires !ExitsEarly(s, peer)
    ensures Synced(s, peer, now, peerNow).add == MergeAbove(s.add, peer.add, s.clock.highestStale)
    ensures Synced(s, peer, now, peerNow).rem == MergeAbove(s.rem, peer.rem, s.clock.highestStale)
  {
    hide MergeMap, MergeAbove, DiffMap, SaveKeys, ClockMerge, ClockHash;
    DeltaIsWhole(s.add, peer.add, s.clock.highestStale, peer.zero);
    DeltaIsWhole(s.rem, peer.rem, s.clock.highestStale, false);
  }

  lemma MergeAboveAt<D>(m: map<Key, Bucket<D>>, n: map<Key, Bucket<D>>, h: nat)
    ensures forall k :: k in MergeAbove(m, n, h) <==> k in m || h < Stamp(n, k)
    ensures forall k :: Stamp(MergeAbove(m, n, h), k) == if h < Stamp(n, k) then Max(Stamp(m, k), Stamp(n, k)) else Stamp(m, k)
    ensures forall k :: k in MergeAbove(m, n, h) ==>
      MergeAbove(m, n, h)[k] == if k in n && h < n[k].vector && Stamp(m, k) < n[k].vector then n[k] else m[k]
  {}

  // ---- The clock, with any stale bound ----

  /** No clock entry falls, and accepted ones are covered. */
  ghost predicate Covers(c: Clock, vs: map<Key, nat>, c': Clock) {
    && c'.self == c.self && c'.highestStale == c.highestStale
    && (forall k :: ClockAt(c, k) <= ClockAt(c', k))
    && (forall k :: c.highestStale < At(vs, k) ==> At(vs, k) <= ClockAt(c', k))
    && (Positive(c) ==> Positive(c'))
  }

  lemma ClockMergeCovers(c: Clock, vs: map<Key, nat>, now: nat)
    ensures Covers(c, vs, ClockMerge(c, vs, now))
  {}

  lemma JoinedClock<D>(s: Store<D>, peer: Store<D>, now: nat, peerNow: nat)
    requires Positive(s.clock)
    ensures
      var c := Joined(s, peer, now, peerNow).clock;
      && c.self == s.clock.self && c.highestStale == s.clock.highestStale && Positive(c)
      && (forall k :: ClockAt(s.clock, k) <= ClockAt(c, k))
  {
    hide ClockMerge;
    var ticked := Ticked(s, now);
    ClockBelowMax(s.clock, s.clock.self);
    ClockMergeCovers(ticked.clock, Clocks(Ticked(peer, peerNow).clock.vectors), now);
  }

  lemma MergeCovers<D>(s: Store<D>, snap: Snapshot<D>, now: nat)
    requires Positive(s.clock)
    ensures
      var c := Merge(s, snap, now).clock;
      && c.self == s.clock.self && c.highestStale == s.clock.highestStale && Positive(c)
      && (forall k :: ClockAt(s.clock, k) <= ClockAt(c, k))
      && (forall k :: c.highestStale < Stamp(snap.add, k) ==> Stamp(snap.add, k) <= ClockAt(c, k))
      && (forall k :: c.highestStale < Stamp(snap.rem, k) ==> Stamp(snap.rem, k) <= ClockAt(c, k))
  {
    hide ClockMerge;
    var c := ClockMerge(s.clock, Stamps(snap.add), now);
    ClockMergeCovers(s.clock, Stamps(snap.add), now);
    ClockMergeCovers(c, Stamps(snap.rem), now);
    assert forall k :: At(Stamps(snap.add), k) == Stamp(snap.add, k);
    assert forall k :: At(Stamps(snap.rem), k) == Stamp(snap.rem, k);
  }

  /** What a session does to one end's clock. */
  lemma SessionClock<D>(s: Store<D>, peer: Store<D>, now: nat, peerNow: nat)
    requires Positive(s.clock)
    ensures
      var c := Synced(s, peer, now, peerNow).clock;
      && c.self == s.clock.self && c.highestStale == s.clock.highestStale && Positive(c)
      && (forall k :: ClockAt(s.clock, k) <= ClockAt(c, k))
      && (!ExitsEarly(s, peer) ==>
           forall k :: c.highestStale < Stamp(peer.add, k) && Stamp(s.add, k) < Stamp(peer.add, k) ==> Stamp(peer.add, k) <= ClockAt(c, k))
      && (!ExitsEarly(s, peer) ==>
           forall k :: c.highestStale < Stamp(peer.rem, k) && Stamp(s.rem, k) < Stamp(peer.rem, k) ==> Stamp(peer.rem, k) <= ClockAt(c, k))
  {
    hide ClockMerge, ClockHash, MergeMap;
    if !ExitsEarly(s, peer) {
      var joined := Joined(s, peer, now, peerNow);
      var answer := Answer(s, peer, now, peerNow);
      JoinedClock(s, peer, now, peerNow);
      MergeCovers(joined, answer, now);
      AnswerStamps(s, peer, now, peerNow);
    }
  }

  lemma AnswerStamps<D>(s: Store<D>, peer: Store<D>, now: nat, peerNow: nat)
    ensures
      var answer := Answer(s, peer, now, peerNow);
      var h := s.clock.highestStale;
      && (forall k :: h < Stamp(peer.add, k) && Stamp(s.add, k) < Stamp(peer.add, k) ==> Stamp(answer.add, k) == Stamp(peer.add, k))
      && (forall k :: h < Stamp(peer.rem, k) && Stamp(s.rem, k) < Stamp(peer.rem, k) ==> Stamp(answer.rem, k) == Stamp(peer.rem, k))
      && (forall k :: Stamp(answer.add, k) <= Stamp(peer.add, k) && Stamp(answer.rem, k) <= Stamp(peer.rem, k))
  {
    hide ClockMerge;
  }

  /** A session keeps every bucket seen by the clock, whatever the two stale bounds are. */
  lemma SessionStamped<D>(s: Store<D>, peer: Store<D>, now: nat, peerNow: nat)
    requires Stamped(s)
    ensures Stamped(Synced(s, peer, now, peerNow))
  {
    hide Synced, Seen, MergeAbove;
    if !ExitsEarly(s, peer) {
      SessionMaps(s, peer, now, peerNow);
      SessionClock(s, peer, now, peerNow);
      var s' := Synced(s, peer, now, peerNow);
      AboveSeen(s.add, peer.add, s.clock.highestStale, s.clock, s'.clock);
      AboveSeen(s.rem, peer.rem, s.clock.highestStale, s.clock, s'.clock);
    } else {
      assert Synced(s, peer, now, peerNow) == s by { SyncedEarly(s, peer, now, peerNow); }
    }
  }

  lemma SyncedEarly<D>(s: Store<D>, peer: Store<D>, now: nat, peerNow: nat)
    requires ExitsEarly(s, peer)
    ensures Synced(s, peer, now, peerNow) == s
  {}

  lemma AboveSeen<D>(m: map<Key, Bucket<D>>, n: map<Key, Bucket<D>>, h: nat, c: Clock, c': Clock)
    requires Seen(m, c) && forall k :: ClockAt(c, k) <= ClockAt(c', k)
    requires forall k :: h < Stamp(n, k) && Stamp(m, k) < Stamp(n, k) ==> Stamp(n, k) <= ClockAt(c', k)
    ensures Seen(MergeAbove(m, n, h), c')
  {
    hide MergeAbove;
    MergeAboveAt(m, n, h);
  }

  // ---- Sessions between replicas that never pruned compute the join ----

  lemma JoinedIsMax<D>(s: Store<D>, peer: Store<D>, now: nat, peerNow: nat)
    requires Stamped(s) && s.clock.highestStale == 0
    ensures
      var c := Joined(s, peer, now, peerNow).clock;
      && c.highestStale == 0 && Positive(c)
      && forall k :: ClockAt(c, k) == Max(ClockAt(Ticked(s, now).clock, k), ClockAt(Ticked(peer, peerNow).clock, k))
  {
    hide ClockMerge, Tick, Seen;
    var s1, p1 := Ticked(s, now), Ticked(peer, peerNow);
    TickKeeps(s, now);
    TickHighest(s.clock, now);
    assert Stamped(s1);
    ClockMergeAt(s1.clock, Clocks(p1.clock.vectors), now);
    assert forall k :: At(Clocks(p1.clock.vectors), k) == ClockAt(p1.clock, k);
  }

  lemma TickedCovers<D>(s: Store<D>, now: nat, k: Key)
    requires Stamped(s)
    ensures Stamp(s.add, k) <= ClockAt(Ticked(s, now).clock, k) && Stamp(s.rem, k) <= ClockAt(Ticked(s, now).clock, k)
  {
    ClockBelowMax(s.clock, k);
  }

  lemma SessionJoinsClocks<D>(s: Store<D>, peer: Store<D>, now: nat, peerNow: nat)
    requires Stamped(s) && Stamped(peer) && s.clock.highestStale == 0 && !ExitsEarly(s, peer)
    ensures
      var c := Synced(s, peer, now, peerNow).clock;
      && Positive(c)
      && forall k :: ClockAt(c, k) == Max(ClockAt(Ticked(s, now).clock, k), ClockAt(Ticked(peer, peerNow).clock, k))
  {
    hide Stamped, ClockHash, Ticked, Joined, Answer, Replica.Merge;
    JoinedIsMax(s, peer, now, peerNow);
    MergeClockAt(Joined(s, peer, now, peerNow), Answer(s, peer, now, peerNow), now);
    AnswerStamps(s, peer, now, peerNow);
    forall k
      ensures Stamp(peer.add, k) <= ClockAt(Ticked(peer, peerNow).clock, k)
      ensures Stamp(peer.rem, k) <= ClockAt(Ticked(peer, peerNow).clock, k)
    {
      TickedCovers(peer, peerNow, k);
    }
  }

  lemma TickHighest(c: Clock, now: nat)
    ensures Tick(c, now).highestStale == c.highestStale && Tick(c, now).self == c.self
  {}

  lemma ClocksEqual(c: Clock, c': Clock)
    requires Positive(c) && Positive(c') && forall k :: ClockAt(c, k) == ClockAt(c', k)
    ensures Clocks(c.vectors) == Clocks(c'.vectors) && ClockHash(c) == ClockHash(c')
  {
    forall k ensures k in c.vectors <==> k in c'.vectors {
      assert ClockAt(c, k) == ClockAt(c', k);
    }
    assert Weights(c.vectors) == Weights(c'.vectors);
  }

  /** Between replicas that never pruned, a session that does not exit early leaves both ends with the same
      clock and the newer of every entry, so the next session between them exits early and changes nothing. */
  lemma SessionComputesJoin<D>(a: Store<D>, b: Store<D>, t: nat, u: nat, t': nat, u': nat)
    requires Stamped(a) && Stamped(b) && a.clock.highestStale == b.clock.highestStale == 0
    requires Coherent(a.add, b.add) && Coherent(a.rem, b.rem) && !ExitsEarly(a, b)
    ensures
      var a', b' := Synced(a, b, t, u), Synced(b, a, u, t);
      && Same(a'.add, b'.add) && Same(a'.rem, b'.rem)
      && Clocks(a'.clock.vectors) == Clocks(b'.clock.vectors)
      && (forall k :: Stamp(a'.add, k) == Max(Stamp(a.add, k), Stamp(b.add, k)))
      && (forall k :: Stamp(a'.rem, k) == Max(Stamp(a.rem, k), Stamp(b.rem, k)))
      && Length(a', b') == 2 && Synced(a', b', t', u') == a' && Synced(b', a', u', t') == b'
  {
    hide Synced, MergeAbove, Tick, ClockHash, Seen;
    var a', b' := Synced(a, b, t, u), Synced(b, a, u, t);
    SessionMaps(a, b, t, u);
    SessionMaps(b, a, u, t);
    SessionJoinsClocks(a, b, t, u);
    SessionJoinsClocks(b, a, u, t);
    ClocksEqual(a'.clock, b'.clock);
    AboveSymmetric(a.add, b.add, a.clock, b.clock);
    AboveSymmetric(a.rem, b.rem, a.clock, b.clock);
    MergeAboveAt(a.add, b.add, 0);
    MergeAboveAt(a.rem, b.rem, 0);
    SyncedEarly(a', b', t', u');
    SyncedEarly(b', a', u', t');
  }

  lemma AboveSymmetric<D>(m: map<Key, Bucket<D>>, n: map<Key, Bucket<D>>, c: Clock, d: Clock)
    requires Coherent(m, n) && Seen(m, c) && Seen(n, d)
    ensures Same(MergeAbove(m, n, 0), MergeAbove(n, m, 0))
  {}
}
