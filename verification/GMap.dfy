/** pkg/crdt/g_map.go */
module GMaps {
  import opened NatMaps
  import opened Replica
  import opened VectorClocks

  /** A merge with nothing visited yet changes nothing. */
  lemma MergeStart<D>(m: map<Key, Bucket<D>>, s: map<Key, Bucket<D>>, c: Clock, vs: map<Key, nat>, now: nat)
    requires vs.Keys == s.Keys
    ensures MergeMap(m, s - s.Keys) == m
    ensures ClockMerge(c, vs - s.Keys, now) == c
  {
    assert s - s.Keys == map[] && vs - s.Keys == map[];
  }

  class GMap<D> {
    const clock: VectorClock
    const zero: D
    var contents: map<Key, Bucket<D>>

    constructor (clock: VectorClock, zero: D)
      ensures contents == map[] && this.clock == clock && this.zero == zero
    {
      this.clock := clock;
      this.zero := zero;
      contents := map[];
    }

    /** Stamps the value with the clock as it was before this write ticked it. */
    method Put(key: Key, value: D, now: nat)
      modifies this, clock
      ensures contents == old(contents)[key := Bucket(MaxClock(old(clock.Value())), value, false)]
      ensures clock.Value() == Tick(old(clock.Value()), now)
    {
      var vector := clock.IncrementClock(now);
      contents := contents[key := Bucket(vector, value, false)];
    }

    predicate ContainsKey(key: Key)
      reads this
    {
      key in contents
    }

    function GetBucket(key: Key): Bucket<D>
      reads this
    {
      if key in contents then contents[key] else Bucket(0, zero, false)
    }

    method PutBucket(key: Key, b: Bucket<D>)
      modifies this
      ensures contents == BucketPut(old(contents), key, b)
    {
      if GetBucket(key).vector < b.vector {
        contents := contents[key := b];
      }
    }

    method Mark(key: Key)
      modifies this
      ensures contents == if key in old(contents)
                          then old(contents)[key := old(contents)[key].(gravestone := true)]
                          else old(contents)
    {
      if ContainsKey(key) {
        contents := contents[key := contents[key].(gravestone := true)];
      }
    }

    method IsMarked(key: Key) returns (marked: bool)
      ensures marked <==> key in contents && contents[key].gravestone
    {
      marked := false;
      if key in contents {
        marked := contents[key].gravestone;
      }
    }

    method Save() returns (buckets: map<Key, Bucket<D>>)
      ensures buckets == contents
    {
      buckets := map[];
      var todo := contents.Keys;
      while todo != {}
        invariant todo <= contents.Keys
        invariant buckets == contents - todo
        decreases |todo|
      {
        var k :| k in todo;
        buckets := buckets[k := contents[k]];
        todo := todo - {k};
      }
    }

    /** Absent keys come back as zero buckets. */
    method SaveWithKeys(keys: set<Key>) returns (buckets: map<Key, Bucket<D>>)
      ensures buckets == SaveKeys(contents, keys, zero)
    {
      buckets := map[];
      var todo := keys;
      while todo != {}
        invariant todo <= keys
        invariant buckets == SaveKeys(contents, keys - todo, zero)
        decreases |todo|
      {
        var k :| k in todo;
        buckets := buckets[k := GetBucket(k)];
        todo := todo - {k};
      }
      assert keys - todo == keys;
    }

    method GetClock() returns (stamps: map<Key, nat>)
      ensures stamps == Stamps(contents)
    {
      stamps := map[];
      var todo := contents.Keys;
      while todo != {}
        invariant todo <= contents.Keys
        invariant stamps == Stamps(contents) - todo
        decreases |todo|
      {
        var k :| k in todo;
        stamps := stamps[k := contents[k].vector];
        todo := todo - {k};
      }
    }

    method GetHash() returns (hash: nat)
      ensures hash == MapHash(contents)
    {
      hide SumWord, Mix;
      hash := 0;
      ghost var stamps: map<Key, nat> := Stamps(contents);
      var todo := contents.Keys;
      assert stamps - todo == map[] && SumWord(map[]) == 0 by { HashNone(); }
      while todo != {}
        invariant todo <= contents.Keys
        invariant hash == SumWord(stamps - todo)
        decreases |todo|
      {
        var k :| k in todo;
        HashStep(stamps, todo, k);
        hash := Mix(hash, contents[k].vector);
        todo := todo - {k};
      }
      assert stamps - todo == stamps;
    }

    method PutStamped(key: Key, b: Bucket<D>, now: nat)
      modifies this, clock
      ensures contents == BucketPut(old(contents), key, b)
      ensures clock.Value() == ClockPut(old(clock.Value()), key, b.vector, now)
    {
      PutBucket(key, b);
      clock.PutHashed(key, b.vector, now);
    }

    /** One of the two loops of `Merge` in pkg/crdt/two_phase_map.go. */
    method Merge(s: map<Key, Bucket<D>>, now: nat)
      modifies this, clock
      ensures contents == MergeMap(old(contents), s)
      ensures clock.Value() == ClockMerge(old(clock.Value()), Stamps(s), now)
    {
      hide MergeMap, ClockMerge, BucketPut, ClockPut;
      ghost var m, c, vs := contents, clock.Value(), Stamps(s);
      var todo := s.Keys;
      MergeStart(m, s, c, vs, now);
      while todo != {}
        invariant todo <= s.Keys
        invariant contents == MergeMap(m, s - todo)
        invariant clock.Value() == ClockMerge(c, vs - todo, now)
        decreases |todo|
      {
        var k :| k in todo;
        PutStamped(k, s[k], now);
        MergeMapStep(m, s, todo, k);
        ClockMergeStep(c, vs, todo, k, now);
        todo := todo - {k};
      }
      assert s - {} == s && vs - {} == vs;
    }

    method Prune()
      modifies this, clock
      ensures contents == old(contents) - Stale(old(clock.Value()))
      ensures clock.Value() == Scan(old(clock.Value()))
    {
      var stale := clock.GetStale();
      contents := contents - stale;
    }
  }
}
