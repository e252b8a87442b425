/** Prunes that fall between the rounds of a session: when a collected entry comes back. */
module LatePruning {
  import opened NatMaps
  import opened Replica
  import opened Causality
  import opened Syncers
  import opened Sessions
  import opened Pruning
  import AtomicRuns

  // ---- One session, whose rounds fall anywhere ----

  /** The entry at k is replaced by a newer one that the stale bound covers all the same. */
  ghost predicate Returns<D>(before: map<Key, Bucket<D>>, after: map<Key, Bucket<D>>, k: Key, highestStale: nat) {
    Stamp(before, k) < Stamp(after, k) <= highestStale
  }

  /** A session that compared the states `mine` and `theirs` under the bound `asked`, was answered from the
      peer's live store, and merges into s, whatever happened to both stores in between: an entry comes
      back below the bound exactly when it was requested, the answer is newer than what s has left, and
      the bound has meanwhile reached the answered stamp. */
  lemma SessionReinstatesIff<D>(mine: MapState, asked: nat, theirs: MapState, live: Store<D>, s: Store<D>, now: nat, k: Key)
    ensures
      var wanted := Replica.Difference(mine, asked, theirs);
      var s' := Replica.Merge(s, SnapshotFor(live, wanted.add.Keys, wanted.rem.Keys), now);
      && (Returns(s.add, s'.add, k, s'.clock.highestStale) <==>
           k in wanted.add && Stamp(s.add, k) < Stamp(live.add, k) <= s.clock.highestStale)
      && (Returns(s.rem, s'.rem, k, s'.clock.highestStale) <==>
           k in wanted.rem && Stamp(s.rem, k) < Stamp(live.rem, k) <= s.clock.highestStale)
  {
    hide MergeMap, ClockMerge, DiffMap;
    var wanted := Replica.Difference(mine, asked, theirs);
    var snap := SnapshotFor(live, wanted.add.Keys, wanted.rem.Keys);
    MergeMapAt(s.add, snap.add);
    MergeMapAt(s.rem, snap.rem);
    MergeSelf(s, snap, now);
  }

  /** So if the bound is the same at MERGE as at PRESENT, only an answer older than what the peer itself had
      reported can come back. */
  lemma SteadyBoundReinstatesNothing<D>(mine: MapState, theirs: MapState, live: Store<D>, s: Store<D>, now: nat, k: Key)
    requires k in theirs.add && 0 < Stamp(live.add, k) ==> theirs.add[k] <= Stamp(live.add, k)
    requires k in theirs.rem && 0 < Stamp(live.rem, k) ==> theirs.rem[k] <= Stamp(live.rem, k)
    ensures
      var wanted := Replica.Difference(mine, s.clock.highestStale, theirs);
      var s' := Replica.Merge(s, SnapshotFor(live, wanted.add.Keys, wanted.rem.Keys), now);
      !Returns(s.add, s'.add, k, s'.clock.highestStale) && !Returns(s.rem, s'.rem, k, s'.clock.highestStale)
  {
    SessionReinstatesIff(mine, s.clock.highestStale, theirs, live, s, now, k);
  }

  // ---- What a prune does to later writes ----

  lemma PrunedMax(c: Clock)
    ensures MaxClock(ClockPrune(c)) <= MaxClock(c)
  {
    var m := Clocks(ClockPrune(c).vectors);
    forall k | k in m ensures m[k] <= MaxClock(c) {
      ClockBelowMax(c, k);
    }
  }

  /** A write after a prune outranks every clock value the replica had exactly when some entry with the
      greatest clock was not stale. */
  lemma WriteAfterPruneOutranksIff<D>(s: Store<D>, k: Key, d: D, now: nat)
    requires s.clock.vectors != map[] && Positive(s.clock)
    ensures (forall j :: ClockAt(s.clock, j) < Put(Prune(s), k, d, now).add[k].vector) <==>
      exists j :: j in s.clock.vectors && ClockAt(s.clock, j) == MaxClock(s.clock) && j !in Stale(s.clock)
  {
    var c := ClockPrune(s.clock);
    PutStamp(Prune(s), k, d, now);
    PrunedMax(s.clock);
    var top := TopKey(s.clock);
    forall j ensures ClockAt(s.clock, j) <= MaxClock(s.clock) {
      ClockBelowMax(s.clock, j);
    }
    if j :| j in s.clock.vectors && ClockAt(s.clock, j) == MaxClock(s.clock) && j !in Stale(s.clock) {
      ClockBelowMax(c, j);
      assert ClockAt(c, j) == MaxClock(s.clock);
    }
    if MaxClock(c) == MaxClock(s.clock) {
      var j := TopKey(c);
      assert ClockAt(s.clock, j) == MaxClock(s.clock) && j !in Stale(s.clock);
    }
  }

  lemma TopKey(c: Clock) returns (k: Key)
    requires 0 < MaxClock(c) || exists k :: k in c.vectors && 0 < ClockAt(c, k)
    ensures k in c.vectors && ClockAt(c, k) == MaxClock(c)
  {
    if j :| j in c.vectors && 0 < ClockAt(c, j) {
      ClockBelowMax(c, j);
    }
    k :| k in Clocks(c.vectors) && Clocks(c.vectors)[k] == MaxClock(c);
  }
}
