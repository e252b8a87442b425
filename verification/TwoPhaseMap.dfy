/** pkg/crdt/two_phase_map.go */
module TwoPhaseMaps {
  import opened NatMaps
  import opened Replica
  import opened VectorClocks
  import opened GMaps

  class TwoPhaseMap<D> {
    const addMap: GMap<D>
    const removeMap: GMap<bool>
    const clock: VectorClock

    /** The objects of this map. All fields are constant, so the footprint never changes. */
    ghost function Repr(): set<object> {
      {this, addMap, removeMap, clock}
    }

    ghost predicate Valid() {
      && addMap.clock == clock && removeMap.clock == clock
      && addMap as object != removeMap
      && removeMap.zero == false
    }

    ghost function Value(): Store<D>
      reads addMap, removeMap, clock
    {
      Store(addMap.contents, removeMap.contents, clock.Value(), addMap.zero)
    }

    constructor (processId: Key, staleTime: nat, zero: D)
      ensures Valid() && fresh(Repr())
      ensures Value() == Empty(processId, staleTime, zero)
    {
      var c := new VectorClock(processId, staleTime);
      clock := c;
      addMap := new GMap<D>(c, zero);
      removeMap := new GMap<bool>(c, false);
    }

    method Contains(key: Key) returns (present: bool)
      requires Valid()
      ensures present <==> Replica.Contains(Value(), key)
    {
      if !addMap.ContainsKey(key) {
        return false;
      }
      if !removeMap.ContainsKey(key) {
        return true;
      }
      present := addMap.GetBucket(key).vector >= removeMap.GetBucket(key).vector;
    }

    method Get(key: Key) returns (d: D)
      requires Valid()
      ensures d == Replica.Get(Value(), key)
    {
      var present := Contains(key);
      d := if present then addMap.GetBucket(key).contents else addMap.zero;
    }

    method Put(key: Key, data: D, now: nat)
      requires Valid()
      modifies addMap, clock
      ensures Value() == Replica.Put(old(Value()), key, data, now)
    {
      var msgSequence := clock.IncrementClock(now);
      clock.Put(key, msgSequence, now);
      addMap.Put(key, data, now);
    }

    method Mark(key: Key)
      requires Valid()
      modifies addMap
      ensures Value() == Replica.Mark(old(Value()), key)
    {
      addMap.Mark(key);
    }

    method Remove(key: Key, now: nat)
      requires Valid()
      modifies removeMap, clock
      ensures Value() == Replica.Remove(old(Value()), key, now)
    {
      removeMap.Put(key, true, now);
    }

    /** The contents of every present key, in some order and each key once. */
    method AsList() returns (keys: seq<Key>, list: seq<D>)
      requires Valid()
      ensures |keys| == |list|
      ensures forall k :: k in keys <==> Replica.Contains(Value(), k)
      ensures forall i, j :: 0 <= i < j < |keys| ==> keys[i] != keys[j]
      ensures forall i :: 0 <= i < |list| ==> list[i] == Replica.Get(Value(), keys[i])
    {
      keys, list := [], [];
      var todo := addMap.contents.Keys;
      while todo != {}
        invariant todo <= addMap.contents.Keys && |keys| == |list|
        invariant forall k :: k in keys <==> Replica.Contains(Value(), k) && k !in todo
        invariant forall i, j :: 0 <= i < j < |keys| ==> keys[i] != keys[j]
        invariant forall i :: 0 <= i < |list| ==> list[i] == Replica.Get(Value(), keys[i])
        decreases |todo|
      {
        var k :| k in todo;
        todo := todo - {k};
        var present := Contains(k);
        if present {
          var d := Get(k);
          keys, list := keys + [k], list + [d];
        }
      }
    }

    method Snapshot() returns (snap: Snapshot<D>)
      requires Valid()
      ensures snap == Replica.Snapshot(Value().add, Value().rem)
    {
      var add := addMap.Save();
      var rem := removeMap.Save();
      snap := Replica.Snapshot(add, rem);
    }

    method SnapShotFromState(state: MapState) returns (snap: Snapshot<D>)
      requires Valid()
      ensures snap == SnapshotFor(Value(), state.add.Keys, state.rem.Keys)
    {
      var add := addMap.SaveWithKeys(state.add.Keys);
      var rem := removeMap.SaveWithKeys(state.rem.Keys);
      snap := Replica.Snapshot(add, rem);
    }

    method IsMarked(key: Key) returns (marked: bool)
      requires Valid()
      ensures marked <==> key in Value().add && Value().add[key].gravestone
    {
      marked := addMap.IsMarked(key);
    }

    method GetHash() returns (hash: nat)
      requires Valid()
      ensures hash == StoreHash(Value())
    {
      var add := addMap.GetHash();
      var rem := removeMap.GetHash();
      hash := (((add + 1) % WORD) * ((rem + 1) % WORD)) % WORD;
    }

    method GenerateMessage() returns (state: MapState)
      requires Valid()
      ensures state == StateOf(Value())
    {
      var add := addMap.GetClock();
      var rem := removeMap.GetClock();
      var vectors := clock.GetClock();
      state := MapState(vectors, add, rem);
    }

    method Merge(snap: Snapshot<D>, now: nat)
      requires Valid()
      modifies addMap, removeMap, clock
      ensures Value() == Replica.Merge(old(Value()), snap, now)
    {
      addMap.Merge(snap.add, now);
      removeMap.Merge(snap.rem, now);
    }

    /** Scans for stale entries three times; the scans agree, so one key set leaves all three maps. */
    method Prune()
      requires Valid()
      modifies addMap, removeMap, clock
      ensures Value() == Replica.Prune(old(Value()))
    {
      addMap.Prune();
      ScanAgain(old(clock.Value()));
      removeMap.Prune();
      clock.Prune();
    }
  }

  /** A second scan finds the same stale keys and records nothing new. */
  lemma ScanAgain(c: Clock)
    ensures Stale(Scan(c)) == Stale(c)
    ensures Scan(Scan(c)) == Scan(c)
    ensures ClockPrune(Scan(c)) == ClockPrune(c)
  {}

  /** The loop of pkg/crdt/two_phase_map.go that asks for one map's missing or older keys. */
  method DifferenceOf(mine: map<Key, nat>, highestStale: nat, theirs: map<Key, nat>)
    returns (wanted: map<Key, nat>)
    ensures wanted == DiffMap(mine, highestStale, theirs)
  {
    wanted := map[];
    var todo := theirs.Keys;
    while todo != {}
      invariant todo <= theirs.Keys
      invariant wanted == DiffMap(mine, highestStale, theirs - todo)
      decreases |todo|
    {
      var k :| k in todo;
      if theirs[k] > highestStale && (k !in mine || mine[k] < theirs[k]) {
        wanted := wanted[k := theirs[k]];
      }
      todo := todo - {k};
    }
    assert theirs - todo == theirs;
  }

  method Difference(mine: MapState, highestStale: nat, theirs: MapState) returns (wanted: MapState)
    ensures wanted == Replica.Difference(mine, highestStale, theirs)
  {
    var add := DifferenceOf(mine.add, highestStale, theirs.add);
    var rem := DifferenceOf(mine.rem, highestStale, theirs.rem);
    wanted := MapState(map[], add, rem);
  }
}
