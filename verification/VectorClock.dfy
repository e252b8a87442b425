/** pkg/crdt/vector_clock.go */
module VectorClocks {
  import opened NatMaps
  import opened Replica

  class VectorClock {
    const processId: Key
    const staleTime: nat
    var vectors: map<Key, VectorBucket>
    var highestStale: nat

    ghost function Value(): Clock
      reads this
    {
      Clock(processId, staleTime, vectors, highestStale)
    }

    constructor (processId: Key, staleTime: nat)
      ensures Value() == Clock(processId, staleTime, map[], 0)
      ensures this.processId == processId
    {
      this.processId := processId;
      this.staleTime := staleTime;
      vectors := map[];
      highestStale := 0;
    }

    /** Stores max + 1 but returns the old max. */
    method IncrementClock(now: nat) returns (maxClock: nat)
      modifies this
      ensures Value() == Tick(old(Value()), now)
      ensures maxClock == MaxClock(old(Value()))
    {
      maxClock := 0;
      var todo := vectors.Keys;
      while todo != {}
        invariant todo <= vectors.Keys
        invariant Value() == old(Value())
        invariant IsMax(Clocks(vectors) - todo, maxClock)
        decreases |todo|
      {
        var k :| k in todo;
        MaxStep(Clocks(vectors), todo, k, maxClock);
        maxClock := Max(maxClock, vectors[k].clock);
        todo := todo - {k};
      }
      assert Clocks(vectors) - todo == Clocks(vectors);
      MaxUnique(Clocks(vectors), maxClock);
      vectors := vectors[processId := VectorBucket(maxClock + 1, now)];
    }

    method GetHash() returns (hash: nat)
      ensures hash == ClockHash(Value())
    {
      hide Weight, SumWord, Mix;
      hash := 0;
      var todo := vectors.Keys;
      ghost var weights: map<Key, nat> := Weights(vectors);
      assert weights - todo == map[] && SumWord(map[]) == 0 by { HashNone(); }
      while todo != {}
        invariant todo <= vectors.Keys
        invariant hash == SumWord(weights - todo)
        decreases |todo|
      {
        var k :| k in todo;
        HashStep(weights, todo, k);
        var weight := Weight(k, vectors[k].clock);
        hash := Mix(hash, weight);
        todo := todo - {k};
      }
      assert weights - todo == weights;
    }

    method Merge(vs: map<Key, nat>, now: nat)
      modifies this
      ensures Value() == ClockMerge(old(Value()), vs, now)
    {
      var todo := vs.Keys;
      ghost var c := Value();
      assert vs - todo == map[] && ClockMerge(c, map[], now) == c;
      while todo != {}
        invariant todo <= vs.Keys
        invariant Value() == ClockMerge(c, vs - todo, now)
        decreases |todo|
      {
        var k :| k in todo;
        ClockMergeStep(c, vs, todo, k, now);
        PutHashed(k, vs[k], now);
        todo := todo - {k};
      }
      assert vs - todo == vs;
    }

    /** The first loop of a scan for stale keys. */
    method LatestUpdate() returns (maxTimestamp: nat)
      ensures maxTimestamp == Freshest(Value())
      ensures forall k :: k in vectors ==> vectors[k].lastUpdate <= maxTimestamp
    {
      maxTimestamp := 0;
      var todo := vectors.Keys;
      while todo != {}
        invariant todo <= vectors.Keys
        invariant IsMax(Updates(vectors) - todo, maxTimestamp)
        decreases |todo|
      {
        var k :| k in todo;
        MaxStep(Updates(vectors), todo, k, maxTimestamp);
        maxTimestamp := Max(maxTimestamp, vectors[k].lastUpdate);
        todo := todo - {k};
      }
      assert Updates(vectors) - todo == Updates(vectors);
      MaxUnique(Updates(vectors), maxTimestamp);
      assert forall k :: k in vectors ==> vectors[k].lastUpdate == Updates(vectors)[k];
    }

    /** Lists the stale keys and raises highestStale over their clocks. */
    method GetStale() returns (stale: set<Key>)
      modifies this`highestStale
      ensures stale == Stale(old(Value()))
      ensures forall k :: k in stale <==>
        k in vectors && exists j :: j in vectors && vectors[j].lastUpdate > vectors[k].lastUpdate + staleTime
      ensures highestStale >= old(highestStale) && forall k :: k in stale ==> vectors[k].clock <= highestStale
      ensures highestStale == old(highestStale) || exists k :: k in stale && vectors[k].clock == highestStale
      ensures Value() == Scan(old(Value()))
    {
      var maxTimestamp := LatestUpdate();
      stale := {};
      ghost var c, all := Value(), Stale(Value());
      assert forall k :: k in vectors ==> (k in all <==> maxTimestamp - vectors[k].lastUpdate > staleTime);
      assert all <= vectors.Keys;
      hide IsMax, Stale, IsStale, Freshest, ClocksOf, Updates, Clocks;
      ghost var highest: nat := 0;
      HighestNone(c);
      var todo := vectors.Keys;
      while todo != {}
        invariant todo <= vectors.Keys
        invariant stale == all - todo
        invariant IsMax(ClocksOf(c, stale), highest)
        invariant highestStale == Max(c.highestStale, highest)
        decreases |todo|
      {
        var k :| k in todo;
        if maxTimestamp - vectors[k].lastUpdate > staleTime {
          ghost var was := stale;
          stale := stale + {k};
          highestStale := Max(vectors[k].clock, highestStale);
          HighestStep(c, was, k, highest);
          highest := Max(highest, vectors[k].clock);
        }
        todo := todo - {k};
      }
      assert stale == all;
      StaleAre(c, stale);
      HighestIs(c, stale, highest);
      MaxUnique(ClocksOf(c, stale), highest);
    }

    method GetStaleCount() returns (count: nat)
      ensures count == Value().highestStale
    {
      count := highestStale;
    }

    method Prune()
      modifies this
      ensures Value() == ClockPrune(old(Value()))
    {
      var stale := GetStale();
      vectors := vectors - stale;
    }

    method Put(key: Key, value: nat, now: nat)
      modifies this
      ensures Value() == ClockPut(old(Value()), key, value, now)
    {
      PutHashed(key, value, now);
    }

    method PutHashed(key: Key, value: nat, now: nat)
      modifies this
      ensures Value() == ClockPut(old(Value()), key, value, now)
    {
      var clockValue := 0;
      if key in vectors {
        clockValue := vectors[key].clock;
      }
      if value > clockValue && value > highestStale {
        vectors := vectors[key := VectorBucket(value, now)];
      }
    }

    method GetClock() returns (clock: map<Key, nat>)
      ensures clock == Clocks(Value().vectors)
    {
      clock := map[];
      var todo := vectors.Keys;
      while todo != {}
        invariant todo <= vectors.Keys
        invariant clock == Clocks(vectors) - todo
        decreases |todo|
      {
        var k :| k in todo;
        clock := clock[k := vectors[k].clock];
        todo := todo - {k};
      }
    }
  }

  lemma StaleAre(c: Clock, stale: set<Key>)
    requires stale == Stale(c)
    ensures forall k :: k in stale <==>
      k in c.vectors && exists j :: j in c.vectors && c.vectors[j].lastUpdate > c.vectors[k].lastUpdate + c.staleTime
  {
    forall k ensures k in stale <==>
      k in c.vectors && exists j :: j in c.vectors && c.vectors[j].lastUpdate > c.vectors[k].lastUpdate + c.staleTime
    {
      StaleIff(c, k);
    }
  }

  lemma HighestIs(c: Clock, stale: set<Key>, highest: nat)
    requires IsMax(ClocksOf(c, stale), highest) && stale <= c.vectors.Keys
    ensures forall k :: k in stale ==> c.vectors[k].clock <= highest
    ensures highest == 0 || exists k :: k in stale && c.vectors[k].clock == highest
  {
    forall k | k in stale ensures c.vectors[k].clock <= highest {
      assert ClocksOf(c, stale)[k] == c.vectors[k].clock;
    }
    if highest != 0 {
      var k :| k in ClocksOf(c, stale) && ClocksOf(c, stale)[k] == highest;
    }
  }

  lemma HighestNone(c: Clock)
    ensures IsMax(ClocksOf(c, {}), 0)
  {}

  lemma HighestStep(c: Clock, was: set<Key>, k: Key, highest: nat)
    requires k in c.vectors && IsMax(ClocksOf(c, was), highest)
    ensures IsMax(ClocksOf(c, was + {k}), Max(highest, c.vectors[k].clock))
  {
    var m, n := ClocksOf(c, was), ClocksOf(c, was + {k});
    assert k in n && n[k] == c.vectors[k].clock;
    assert forall j :: j in n ==> j == k || (j in m && m[j] == n[j]);
    assert forall j :: j in m ==> j in n && n[j] == m[j];
  }
}
