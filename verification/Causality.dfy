/** What one replica's clock promises about the stamps it hands out. */
module Causality {
  import opened NatMaps
  import opened Replica

  ghost predicate Positive(c: Clock) {
    forall k :: k in c.vectors ==> 1 <= ClockAt(c, k)
  }

  ghost predicate Seen<D>(m: map<Key, Bucket<D>>, c: Clock) {
    forall k :: k in m ==> 1 <= Stamp(m, k) <= ClockAt(c, k)
  }

  /** Every bucket is stamped, and the clock has seen its stamp. */
  ghost predicate Stamped<D>(s: Store<D>) {
    && Positive(s.clock)
    && Seen(s.add, s.clock) && Seen(s.rem, s.clock)
  }

  /** A replica's own clock is ahead of its own buckets. */
  ghost predicate OwnAhead<D>(s: Store<D>) {
    var self := s.clock.self;
    && (self in s.add ==> s.add[self].vector < ClockAt(s.clock, self))
    && (self in s.rem ==> s.rem[self].vector < ClockAt(s.clock, self))
  }

  lemma ClockBelowMax(c: Clock, k: Key)
    ensures ClockAt(c, k) <= MaxClock(c)
  {
    if k in c.vectors {
      assert Clocks(c.vectors)[k] <= MaxClock(c);
    }
  }

  lemma TickMax(c: Clock, now: nat)
    ensures MaxClock(Tick(c, now)) == MaxClock(c) + 1
  {
    var m := Clocks(Tick(c, now).vectors);
    forall k | k in m ensures m[k] <= MaxClock(c) + 1 {
      ClockBelowMax(c, k);
    }
    assert c.self in m && m[c.self] == MaxClock(c) + 1;
    MaxUnique(m, MaxClock(c) + 1);
  }

  /** Putting a value the clock has already passed leaves its greatest entry alone. */
  lemma PutBelowMax(c: Clock, k: Key, v: nat, now: nat)
    requires v < MaxClock(c)
    ensures MaxClock(ClockPut(c, k, v, now)) == MaxClock(c)
  {
    if Accepts(c, k, v) {
      var m := Clocks(ClockPut(c, k, v, now).vectors);
      forall j | j in m ensures m[j] <= MaxClock(c) {
        ClockBelowMax(c, j);
      }
      var top :| top in Clocks(c.vectors) && Clocks(c.vectors)[top] == MaxClock(c);
      assert top in m && m[top] == MaxClock(c);
      MaxUnique(m, MaxClock(c));
    }
  }

  /** A write is stamped one above the greatest clock. */
  lemma PutStamp<D>(s: Store<D>, k: Key, d: D, now: nat)
    ensures Put(s, k, d, now).add == s.add[k := Bucket(MaxClock(s.clock) + 1, d, false)]
    ensures k == s.clock.self ==>
      Put(s, k, d, now).clock.vectors == s.clock.vectors[k := VectorBucket(MaxClock(s.clock) + 2, now)]
  {
    var n := MaxClock(s.clock);
    TickMax(s.clock, now);
    PutBelowMax(Tick(s.clock, now), k, n, now);
    TickMax(ClockPut(Tick(s.clock, now), k, n, now), now);
  }

  /** A write of a foreign key also lifts that key's clock to what was the greatest, if it may. */
  lemma PutForeign<D>(s: Store<D>, k: Key, d: D, now: nat)
    requires k != s.clock.self
    ensures
      var c, top := Put(s, k, d, now).clock, MaxClock(s.clock);
      && ClockAt(c, s.clock.self) == top + 2
      && (ClockAt(s.clock, k) < top && s.clock.highestStale < top ==> k in c.vectors && c.vectors[k] == VectorBucket(top, now))
      && (!(ClockAt(s.clock, k) < top && s.clock.highestStale < top) ==>
           (k in c.vectors <==> k in s.clock.vectors) && (k in c.vectors ==> c.vectors[k] == s.clock.vectors[k]))
  {
    var n := MaxClock(s.clock);
    TickMax(s.clock, now);
    PutBelowMax(Tick(s.clock, now), k, n, now);
    hide MaxClock;
  }

  /** A value replaces a clock entry, and its time, exactly when it is above both the entry and the bound. */
  lemma ClockPutIff(c: Clock, k: Key, v: nat, now: nat)
    ensures
      var c', was := ClockPut(c, k, v, now), if k in c.vectors then c.vectors[k].clock else 0;
      && (was < v && c.highestStale < v ==> c'.vectors == c.vectors[k := VectorBucket(v, now)])
      && (v <= was || v <= c.highestStale ==> c' == c)
      && c'.self == c.self && c'.staleTime == c.staleTime && c'.highestStale == c.highestStale
  {}

  lemma PutElse<D>(s: Store<D>, k: Key, d: D, now: nat)
    ensures
      var s' := Put(s, k, d, now);
      s'.rem == s.rem && s'.zero == s.zero && s'.clock.self == s.clock.self
  {}

  /** A write by anyone to any key outranks every stamp and every clock value the replica has seen, so
      the key is present with the new data whatever was removed before. */
  lemma PutDominates<D>(s: Store<D>, k: Key, d: D, now: nat)
    requires Stamped(s)
    ensures var s' := Put(s, k, d, now);
      && Contains(s', k) && Get(s', k) == d
      && (forall j :: ClockAt(s.clock, j) < s'.add[k].vector)
      && (forall j :: Stamp(s.add, j) < s'.add[k].vector && Stamp(s.rem, j) < s'.add[k].vector)
  {
    PutStamp(s, k, d, now);
    forall j ensures ClockAt(s.clock, j) <= MaxClock(s.clock) {
      ClockBelowMax(s.clock, j);
    }
  }

  /** A removal makes its key absent exactly when some clock has passed the key's stamp: it is stamped
      only at the greatest clock, and a tie keeps the key. */
  lemma RemoveWorksIff<D>(s: Store<D>, k: Key, now: nat)
    requires k in s.add
    ensures !Contains(Remove(s, k, now), k) <==> s.add[k].vector < MaxClock(s.clock)
  {}

  /** So a replica's removal of its own key always takes effect. */
  lemma RemoveOwn<D>(s: Store<D>, now: nat)
    requires Stamped(s) && OwnAhead(s)
    ensures !Contains(Remove(s, s.clock.self, now), s.clock.self) && Get(Remove(s, s.clock.self, now), s.clock.self) == s.zero
  {
    ClockBelowMax(s.clock, s.clock.self);
  }

  /** The first write of a fresh replica. */
  lemma FirstWrite<D>(d: D)
    ensures
      var s := Put(Empty(1, 0, d), 1, d, 0);
      && s.add == map[1 := Bucket(1, d, false)] && s.rem == map[]
      && s.clock == Clock(1, 0, map[1 := VectorBucket(2, 0)], 0)
  {
    var e := Empty(1, 0, d);
    MaxUnique(Clocks(e.clock.vectors), 0);
    PutStamp(e, 1, d, 0);
  }

  /** Without the other replica's clock, as after a bare Load, removing its key can tie and do nothing. */
  lemma RemoveForeignTies<D>(d: D)
    ensures
      var owner := Put(Empty(1, 0, d), 1, d, 0);
      var loaded := Merge(Empty(2, 0, d), Snapshot(owner.add, owner.rem), 0);
      Contains(loaded, 1) && Contains(Remove(loaded, 1, 0), 1)
  {
    FirstWrite(d);
    var owner := Put(Empty(1, 0, d), 1, d, 0);
    var loaded := Merge(Empty(2, 0, d), Snapshot(owner.add, owner.rem), 0);
    assert loaded.clock.vectors == map[1 := VectorBucket(1, 0)];
    MaxUnique(Clocks(loaded.clock.vectors), 1);
  }

  // ---- Every operation keeps the discipline ----

  lemma TickKeeps<D>(s: Store<D>, now: nat)
    requires Stamped(s)
    ensures var s' := s.(clock := Tick(s.clock, now)); Stamped(s') && OwnAhead(s')
  {
    ClockBelowMax(s.clock, s.clock.self);
  }

  lemma PutKeeps<D>(s: Store<D>, d: D, now: nat)
    requires Stamped(s)
    ensures var s' := Put(s, s.clock.self, d, now); Stamped(s') && OwnAhead(s')
  {
    PutStamp(s, s.clock.self, d, now);
    ClockBelowMax(s.clock, s.clock.self);
  }

  lemma RemoveKeeps<D>(s: Store<D>, now: nat)
    requires Stamped(s) && Contains(s, s.clock.self)
    ensures var s' := Remove(s, s.clock.self, now); Stamped(s') && OwnAhead(s')
  {
    ClockBelowMax(s.clock, s.clock.self);
  }

  // ---- What merging does, key by key ----

  lemma MergeMapAt<D>(m: map<Key, Bucket<D>>, s: map<Key, Bucket<D>>)
    ensures forall k :: k in MergeMap(m, s) <==> k in m || 0 < Stamp(s, k)
    ensures forall k :: Stamp(MergeMap(m, s), k) == Max(Stamp(m, k), Stamp(s, k))
  {}

  lemma ClockMergeAt(c: Clock, vs: map<Key, nat>, now: nat)
    requires c.highestStale == 0
    ensures forall k :: ClockAt(ClockMerge(c, vs, now), k) == Max(ClockAt(c, k), At(vs, k))
    ensures var c' := ClockMerge(c, vs, now); c'.self == c.self && c'.highestStale == 0
    ensures Positive(c) ==> Positive(ClockMerge(c, vs, now))
  {}

  /** With no stale bound, merging a snapshot raises the clock over every one of its buckets. */
  lemma MergeClockAt<D>(s: Store<D>, snap: Snapshot<D>, now: nat)
    requires s.clock.highestStale == 0
    ensures forall k :: ClockAt(Merge(s, snap, now).clock, k)
                     == Max(ClockAt(s.clock, k), Max(Stamp(snap.add, k), Stamp(snap.rem, k)))
    ensures var c' := Merge(s, snap, now).clock; c'.self == s.clock.self && c'.highestStale == 0
    ensures Positive(s.clock) ==> Positive(Merge(s, snap, now).clock)
  {
    hide ClockMerge;
    var c := ClockMerge(s.clock, Stamps(snap.add), now);
    ClockMergeAt(s.clock, Stamps(snap.add), now);
    ClockMergeAt(c, Stamps(snap.rem), now);
    assert forall k :: At(Stamps(snap.add), k) == Stamp(snap.add, k);
    assert forall k :: At(Stamps(snap.rem), k) == Stamp(snap.rem, k);
  }

  lemma MergeSeen<D>(m: map<Key, Bucket<D>>, s: map<Key, Bucket<D>>, c: Clock, c': Clock)
    requires Seen(m, c)
    requires forall k :: ClockAt(c, k) <= ClockAt(c', k) && Stamp(s, k) <= ClockAt(c', k)
    ensures Seen(MergeMap(m, s), c')
  {
    hide MergeMap;
    MergeMapAt(m, s);
  }

  lemma MergeStamped<D>(s: Store<D>, snap: Snapshot<D>, now: nat)
    requires Stamped(s) && s.clock.highestStale == 0
    ensures Stamped(Merge(s, snap, now))
  {
    hide MergeMap, ClockMerge, Seen;
    MergeClockAt(s, snap, now);
    MergeSeen(s.add, snap.add, s.clock, Merge(s, snap, now).clock);
    MergeSeen(s.rem, snap.rem, s.clock, Merge(s, snap, now).clock);
  }
}
