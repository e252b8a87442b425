/** The replicated two-phase map as a value, and each of its operations as a function on values.
    The classes of this project are proved against these functions; the protocol theorems are
    proved about them. */
module Replica {
  import opened NatMaps

  datatype Option<+T> = None | Some(value: T)

  const WORD: nat := 0x1_0000_0000_0000_0000

  datatype VectorBucket = VectorBucket(clock: nat, lastUpdate: nat)

  datatype Clock = Clock(self: Key, staleTime: nat, vectors: map<Key, VectorBucket>, highestStale: nat)

  datatype Bucket<D> = Bucket(vector: nat, contents: D, gravestone: bool)

  /** `zero` is Go's zero value of the stored type. */
  datatype Store<D> = Store(add: map<Key, Bucket<D>>, rem: map<Key, Bucket<bool>>, clock: Clock, zero: D)

  datatype Snapshot<D> = Snapshot(add: map<Key, Bucket<D>>, rem: map<Key, Bucket<bool>>)

  datatype MapState = MapState(vectors: map<Key, nat>, add: map<Key, nat>, rem: map<Key, nat>)

  // ---- The clock ----

  function Clocks(v: map<Key, VectorBucket>): map<Key, nat> {
    map k | k in v :: v[k].clock
  }

  function Updates(v: map<Key, VectorBucket>): map<Key, nat> {
    map k | k in v :: v[k].lastUpdate
  }

  function ClockAt(c: Clock, k: Key): nat {
    if k in c.vectors then c.vectors[k].clock else 0
  }

  ghost function MaxClock(c: Clock): nat {
    MaxOf(Clocks(c.vectors))
  }

  ghost function Tick(c: Clock, now: nat): Clock {
    c.(vectors := c.vectors[c.self := VectorBucket(MaxClock(c) + 1, now)])
  }

  predicate Accepts(c: Clock, k: Key, v: nat) {
    v > ClockAt(c, k) && v > c.highestStale
  }

  function ClockPut(c: Clock, k: Key, v: nat, now: nat): Clock {
    if Accepts(c, k, v) then c.(vectors := c.vectors[k := VectorBucket(v, now)]) else c
  }

  function ClockMerge(c: Clock, vs: map<Key, nat>, now: nat): Clock {
    c.(vectors :=
      map k | k in c.vectors.Keys + vs.Keys && (k in c.vectors || Accepts(c, k, vs[k])) ::
        if k in vs && Accepts(c, k, vs[k]) then VectorBucket(vs[k], now) else c.vectors[k])
  }

  ghost function Freshest(c: Clock): nat {
    MaxOf(Updates(c.vectors))
  }

  ghost predicate IsStale(c: Clock, k: Key) {
    k in c.vectors && Freshest(c) - c.vectors[k].lastUpdate > c.staleTime
  }

  ghost function Stale(c: Clock): set<Key> {
    set k | k in c.vectors && IsStale(c, k)
  }

  /** Stale is what some entry has outrun by more than the stale time. */
  lemma StaleIff(c: Clock, k: Key)
    ensures k in Stale(c) <==>
      k in c.vectors && exists j :: j in c.vectors && c.vectors[j].lastUpdate > c.vectors[k].lastUpdate + c.staleTime
  {
    var m: map<Key, nat> := Updates(c.vectors);
    forall j | j in c.vectors ensures c.vectors[j].lastUpdate <= Freshest(c) {
      assert m[j] <= MaxOf(m);
    }
    if k in Stale(c) {
      var j :| j in m && m[j] == Freshest(c);
    }
  }

  function ClocksOf(c: Clock, keys: set<Key>): map<Key, nat> {
    map k | k in keys :: ClockAt(c, k)
  }

  /** What a scan for stale entries leaves behind: highestStale covers every stale clock. */
  ghost function Scan(c: Clock): Clock {
    c.(highestStale := Max(c.highestStale, MaxOf(ClocksOf(c, Stale(c)))))
  }

  ghost function ClockPrune(c: Clock): Clock {
    Scan(c).(vectors := c.vectors - Stale(c))
  }

  function Weight(k: Key, clock: nat): nat {
    k * (clock + 1)
  }

  ghost function Weights(v: map<Key, VectorBucket>): map<Key, nat> {
    map k | k in v :: Weight(k, v[k].clock)
  }

  ghost function ClockHash(c: Clock): nat {
    SumWord(Weights(c.vectors))
  }

  /** Reducing after every addition gives the residue of the whole sum. */
  lemma ModAdd(x: nat, y: nat)
    ensures (x % WORD + y % WORD) % WORD == (x + y) % WORD
  {}

  lemma HashNone()
    ensures SumWord(map[]) == 0
  {}

  /** One addition in a machine word. */
  function Mix(hash: nat, n: nat): nat {
    (hash + n % WORD) % WORD
  }

  ghost function SumWord(m: map<Key, nat>): nat {
    Sum(m) % WORD
  }

  /** One step of a loop that hashes by summing. */
  lemma HashStep(m: map<Key, nat>, todo: set<Key>, k: Key)
    requires k in todo && k in m
    ensures Mix(SumWord(m - todo), m[k]) == SumWord(m - (todo - {k}))
  {
    SumStep(m, todo, k);
    ModAdd(Sum(m - todo), m[k]);
  }

  /** Putting one more entry extends a clock merge by that entry, in whatever order entries come. */
  lemma ClockMergeStep(c: Clock, vs: map<Key, nat>, todo: set<Key>, k: Key, now: nat)
    requires k in todo && k in vs
    ensures ClockPut(ClockMerge(c, vs - todo, now), k, vs[k], now) == ClockMerge(c, vs - (todo - {k}), now)
  {
    var d := ClockMerge(c, vs - todo, now);
    assert ClockAt(d, k) == ClockAt(c, k);
    assert ClockPut(d, k, vs[k], now).vectors == ClockMerge(c, vs - (todo - {k}), now).vectors;
  }

  // ---- The stamped maps ----

  function Stamp<D>(m: map<Key, Bucket<D>>, k: Key): nat {
    if k in m then m[k].vector else 0
  }

  function Stamps<D>(m: map<Key, Bucket<D>>): map<Key, nat> {
    map k | k in m :: m[k].vector
  }

  function BucketPut<D>(m: map<Key, Bucket<D>>, k: Key, b: Bucket<D>): map<Key, Bucket<D>> {
    if Stamp(m, k) < b.vector then m[k := b] else m
  }

  function MergeMap<D>(m: map<Key, Bucket<D>>, s: map<Key, Bucket<D>>): map<Key, Bucket<D>> {
    map k | k in m.Keys + s.Keys && (k in m || 0 < s[k].vector) ::
      if k in s && Stamp(m, k) < s[k].vector then s[k] else m[k]
  }

  function SaveKeys<D>(m: map<Key, Bucket<D>>, keys: set<Key>, zero: D): map<Key, Bucket<D>> {
    map k | k in keys :: if k in m then m[k] else Bucket(0, zero, false)
  }

  function DiffMap(mine: map<Key, nat>, highestStale: nat, theirs: map<Key, nat>): map<Key, nat> {
    map k | k in theirs && theirs[k] > highestStale && (k !in mine || mine[k] < theirs[k]) :: theirs[k]
  }

  /** Putting one more bucket extends a merge by that bucket, in whatever order buckets come. */
  lemma MergeMapStep<D>(m: map<Key, Bucket<D>>, s: map<Key, Bucket<D>>, todo: set<Key>, k: Key)
    requires k in todo && k in s
    ensures BucketPut(MergeMap(m, s - todo), k, s[k]) == MergeMap(m, s - (todo - {k}))
  {
    var n := MergeMap(m, s - todo);
    assert Stamp(n, k) == Stamp(m, k);
    assert BucketPut(n, k, s[k]) == MergeMap(m, s - (todo - {k}));
  }

  ghost function MapHash<D>(m: map<Key, Bucket<D>>): nat {
    SumWord(Stamps(m))
  }

  // ---- The store ----

  predicate Contains<D>(s: Store<D>, k: Key) {
    k in s.add && (k in s.rem ==> s.add[k].vector >= s.rem[k].vector)
  }

  function Get<D>(s: Store<D>, k: Key): D {
    if Contains(s, k) then s.add[k].contents else s.zero
  }

  ghost function Put<D>(s: Store<D>, k: Key, d: D, now: nat): Store<D> {
    var c1 := ClockPut(Tick(s.clock, now), k, MaxClock(s.clock), now);
    s.(add := s.add[k := Bucket(MaxClock(c1), d, false)], clock := Tick(c1, now))
  }

  ghost function Remove<D>(s: Store<D>, k: Key, now: nat): Store<D> {
    s.(rem := s.rem[k := Bucket(MaxClock(s.clock), true, false)], clock := Tick(s.clock, now))
  }

  function Mark<D>(s: Store<D>, k: Key): Store<D> {
    if k in s.add then s.(add := s.add[k := s.add[k].(gravestone := true)]) else s
  }

  function StateOf<D>(s: Store<D>): MapState {
    MapState(Clocks(s.clock.vectors), Stamps(s.add), Stamps(s.rem))
  }

  function Difference(mine: MapState, highestStale: nat, theirs: MapState): MapState {
    MapState(map[], DiffMap(mine.add, highestStale, theirs.add), DiffMap(mine.rem, highestStale, theirs.rem))
  }

  function SnapshotFor<D>(s: Store<D>, addKeys: set<Key>, remKeys: set<Key>): Snapshot<D> {
    Snapshot(SaveKeys(s.add, addKeys, s.zero), SaveKeys(s.rem, remKeys, false))
  }

  function Merge<D>(s: Store<D>, snap: Snapshot<D>, now: nat): Store<D> {
    s.(add := MergeMap(s.add, snap.add),
       rem := MergeMap(s.rem, snap.rem),
       clock := ClockMerge(ClockMerge(s.clock, Stamps(snap.add), now), Stamps(snap.rem), now))
  }

  ghost function Prune<D>(s: Store<D>): Store<D> {
    s.(add := s.add - Stale(s.clock), rem := s.rem - Stale(s.clock), clock := ClockPrune(s.clock))
  }

  ghost function StoreHash<D>(s: Store<D>): nat {
    (((MapHash(s.add) + 1) % WORD) * ((MapHash(s.rem) + 1) % WORD)) % WORD
  }

  function Empty<D>(self: Key, staleTime: nat, zero: D): Store<D> {
    Store(map[], map[], Clock(self, staleTime, map[], 0), zero)
  }
}
