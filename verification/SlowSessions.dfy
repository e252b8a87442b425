/** Two runs of the program's own steps in which a session takes longer than the stale time. */
module SlowSessions {
  import opened NatMaps
  import opened Replica
  import opened Causality
  import opened SteadyRuns
  import opened LatePruning

  ghost predicate Step<D(!new)>(w: World<D>, w': World<D>) {
    exists a :: Enabled(w, a) && w' == Apply(w, a)
  }

  /** A run with no condition on when prunes and merges happen. */
  ghost predicate IsRun<D(!new)>(ws: seq<World<D>>) {
    && ws != [] && ws[0] == World(map[], {}, {}, {})
    && forall t :: 0 <= t < |ws| - 1 ==> Step(ws[t], ws[t + 1])
  }

  /** A run grown by one action that leaves this store. */
  lemma RunOn<D(!new)>(ws: seq<World<D>>, a: Action<D>, s: Store<D>) returns (longer: seq<World<D>>)
    requires IsRun(ws) && Enabled(ws[|ws| - 1], a) && NodeAfter(ws[|ws| - 1], a) == s
    ensures IsRun(longer) && |longer| == |ws| + 1 && longer[..|ws|] == ws && longer[|ws|] == Apply(ws[|ws| - 1], a)
    ensures longer[|ws|].nodes == ws[|ws| - 1].nodes[a.i := s]
    ensures IsTimelyRun(ws) && UnderItsBound(ws[|ws| - 1], a) && Timely(ws[|ws| - 1], a) ==> IsTimelyRun(longer)
    ensures !a.Report? ==> longer[|ws|].reports == ws[|ws| - 1].reports
    ensures !a.Ask? ==> longer[|ws|].requests == ws[|ws| - 1].requests
    ensures !a.Reply? ==> longer[|ws|].answers == ws[|ws| - 1].answers
  {
    hide Enabled, NodeAfter;
    var w := Apply(ws[|ws| - 1], a);
    longer := ws + [w];
    hide Apply, Timely, UnderItsBound;
    assert Step(ws[|ws| - 1], w);
    assert UnderItsBound(ws[|ws| - 1], a) && Timely(ws[|ws| - 1], a) ==> TimelyStep(ws[|ws| - 1], w);
    assert IsTimelyRun(ws) ==> forall t :: 0 <= t < |ws| - 1 ==> TimelyStep(ws[t], ws[t + 1]);
    forall t | 0 <= t < |longer| - 1 ensures Step(longer[t], longer[t + 1]) {
      assert t < |ws| - 1 ==> Step(ws[t], ws[t + 1]);
    }
  }

  lemma StartOfRun<D(!new)>()
    ensures IsRun<D>([World(map[], {}, {}, {})]) && IsTimelyRun<D>([World(map[], {}, {}, {})])
  {}

  // ---- One operation at a time, on small stores ----

  lemma TopIs(c: Clock, k: Key)
    requires k in c.vectors && forall j :: j in c.vectors ==> c.vectors[j].clock <= c.vectors[k].clock
    ensures MaxClock(c) == c.vectors[k].clock
  {
    assert k in Clocks(c.vectors) && Clocks(c.vectors)[k] == c.vectors[k].clock;
    MaxUnique(Clocks(c.vectors), c.vectors[k].clock);
  }

  lemma NoTop(c: Clock)
    requires c.vectors == map[]
    ensures MaxClock(c) == 0
  {
    MaxUnique(Clocks(c.vectors), 0);
  }

  lemma WriteGives<D>(s: Store<D>, d: D, now: nat, top: nat)
    requires MaxClock(s.clock) == top
    ensures
      var i := s.clock.self;
      Put(s, i, d, now) == s.(add := s.add[i := Bucket(top + 1, d, false)],
                              clock := s.clock.(vectors := s.clock.vectors[i := VectorBucket(top + 2, now)]))
  {
    PutStamp(s, s.clock.self, d, now);
    PutStaleTime(s, s.clock.self, d, now);
    PutElse(s, s.clock.self, d, now);
    hide Put, MaxClock;
  }

  /** A store of replica 1 with nothing removed. */
  function Reader<D>(add: map<Key, Bucket<D>>, vectors: map<Key, VectorBucket>, highestStale: nat, d: D): Store<D> {
    Store(add, map[], Clock(1, 1, vectors, highestStale), d)
  }

  /** A store of replica 2 that holds only its own entry. */
  function Owner<D>(stamp: nat, clock: nat, d: D): Store<D> {
    Store(map[2 := Bucket(stamp, d, false)], map[], Clock(2, 1, map[2 := VectorBucket(clock, 0)], 0), d)
  }

  lemma OwnerWrites<D>(d: D)
    ensures Put(Empty(2, 1, d), 2, d, 0) == Owner(1, 2, d) && Put(Owner(1, 2, d), 2, d, 0) == Owner(3, 4, d)
    ensures Owner(3, 4, d).(clock := Tick(Owner(3, 4, d).clock, 0)) == Owner(3, 5, d)
  {
    var e: Store<D> := Empty(2, 1, d);
    NoTop(e.clock);
    TopIs(Owner(1, 2, d).clock, 2);
    TopIs(Owner(3, 4, d).clock, 2);
    WriteGives(e, d, 0, 0);
    WriteGives(Owner(1, 2, d), d, 0, 2);
    hide Put, MaxClock;
  }

  // ---- A prune inside a session ----

  function Old<D>(d: D): map<Key, Bucket<D>> {
    map[2 := Bucket(1, d, false)]
  }

  function Both<D>(d: D): map<Key, Bucket<D>> {
    map[2 := Bucket(1, d, false), 1 := Bucket(6, d, false)]
  }

  function Back<D>(d: D): map<Key, Bucket<D>> {
    map[1 := Bucket(6, d, false), 2 := Bucket(3, d, false)]
  }

  function NewAnswer<D>(d: D): Snapshot<D> {
    Snapshot(map[2 := Bucket(3, d, false)], map[])
  }

  lemma Loads<D>(d: D)
    ensures Replica.Merge(Empty(1, 1, d), Snapshot(Owner(1, 2, d).add, Owner(1, 2, d).rem), 0)
         == Reader(Old(d), map[2 := VectorBucket(1, 0)], 0, d)
  {
    var e: Store<D> := Empty(1, 1, d);
    assert MergeMap(e.add, Old(d)) == Old(d) && MergeMap(e.rem, map[]) == map[];
    assert Stamps(Old(d)) == map[2 := 1] && Stamps<bool>(map[]) == map[];
    assert ClockMerge(e.clock, map[2 := 1], 0).vectors == map[2 := VectorBucket(1, 0)];
    var c := ClockMerge(e.clock, map[2 := 1], 0);
    assert ClockMerge(c, map[], 0).vectors == c.vectors;
  }

  lemma Starts<D>(d: D)
    ensures
      var s := Reader(Old(d), map[2 := VectorBucket(1, 0)], 0, d);
      s.(clock := Tick(s.clock, 0)) == Reader(Old(d), map[2 := VectorBucket(1, 0), 1 := VectorBucket(2, 0)], 0, d)
  {
    TopIs(Reader(Old(d), map[2 := VectorBucket(1, 0)], 0, d).clock, 2);
    hide MaxClock;
  }

  lemma Asks<D>(d: D)
    ensures
      var s := Reader(Old(d), map[2 := VectorBucket(1, 0), 1 := VectorBucket(2, 0)], 0, d);
      var wanted := Difference(StateOf(s), 0, StateOf(Owner(3, 5, d)));
      wanted.add.Keys == {2} && wanted.rem.Keys == {}
  {}

  lemma Joins<D>(d: D)
    ensures
      var s := Reader(Old(d), map[2 := VectorBucket(1, 0), 1 := VectorBucket(2, 0)], 0, d);
      s.(clock := ClockMerge(s.clock, StateOf(Owner(3, 5, d)).vectors, 0))
        == Reader(Old(d), map[2 := VectorBucket(5, 0), 1 := VectorBucket(2, 0)], 0, d)
  {
    assert StateOf(Owner(3, 5, d)).vectors == map[2 := 5];
    var c := Reader(Old(d), map[2 := VectorBucket(1, 0), 1 := VectorBucket(2, 0)], 0, d).clock;
    assert ClockMerge(c, map[2 := 5], 0).vectors == map[2 := VectorBucket(5, 0), 1 := VectorBucket(2, 0)];
  }

  lemma Replies<D>(d: D)
    ensures SnapshotFor(Owner(3, 5, d), {2}, {}) == NewAnswer(d)
  {}

  lemma WritesLate<D>(d: D)
    ensures Put(Reader(Old(d), map[2 := VectorBucket(5, 0), 1 := VectorBucket(2, 0)], 0, d), 1, d, 100)
         == Reader(Both(d), map[2 := VectorBucket(5, 0), 1 := VectorBucket(7, 100)], 0, d)
  {
    var s := Reader(Old(d), map[2 := VectorBucket(5, 0), 1 := VectorBucket(2, 0)], 0, d);
    TopIs(s.clock, 2);
    WriteGives(s, d, 100, 5);
    hide Put, MaxClock;
  }

  lemma Prunes<D>(d: D)
    ensures
      var s := Reader(Both(d), map[2 := VectorBucket(5, 0), 1 := VectorBucket(7, 100)], 0, d);
      && Stale(s.clock) == {2}
      && Prune(s) == Reader(map[1 := Bucket(6, d, false)], map[1 := VectorBucket(7, 100)], 5, d)
  {
    var c := Clock(1, 1, map[2 := VectorBucket(5, 0), 1 := VectorBucket(7, 100)], 0);
    var m: map<Key, nat> := Updates(c.vectors);
    assert 1 in m && m[1] == 100;
    MaxUnique(m, 100);
    assert Stale(c) == {2};
    var n := ClocksOf(c, {2});
    assert 2 in n && n[2] == 5;
    MaxUnique(n, 5);
    assert Both(d) - {2} == map[1 := Bucket(6, d, false)];
    assert c.vectors - {2} == map[1 := VectorBucket(7, 100)];
  }

  lemma MergesLate<D>(d: D)
    ensures Replica.Merge(Reader(map[1 := Bucket(6, d, false)], map[1 := VectorBucket(7, 100)], 5, d), NewAnswer(d), 100)
         == Reader(Back(d), map[1 := VectorBucket(7, 100)], 5, d)
  {
    var s := Reader(map[1 := Bucket(6, d, false)], map[1 := VectorBucket(7, 100)], 5, d);
    assert MergeMap(s.add, NewAnswer(d).add) == Back(d) && MergeMap(s.rem, NewAnswer(d).rem) == s.rem;
    assert Stamps(NewAnswer(d).add) == map[2 := 3] && Stamps(NewAnswer(d).rem) == map[];
    assert ClockMerge(s.clock, map[2 := 3], 100).vectors == s.clock.vectors;
    assert ClockMerge(s.clock, map[], 100).vectors == s.clock.vectors;
  }

  /** The run up to the moment at which 1, an old entry of 2 in hand, has asked for the newer one and 2 has answered. */
  lemma UpToTheAnswer<D(!new)>(d: D) returns (ws: seq<World<D>>)
    ensures IsRun(ws) && IsTimelyRun(ws)
    ensures
      var w := ws[|ws| - 1];
      && w.nodes == map[2 := Owner(3, 5, d), 1 := Reader(Old(d), map[2 := VectorBucket(5, 0), 1 := VectorBucket(2, 0)], 0, d)]
      && w.answers == {Sent(0, NewAnswer(d))}
  {
    hide IsRun, IsTimelyRun, Put, Tick, ClockMerge, Replica.Merge, StateOf, SnapshotFor, Difference, Apply;
    OwnerWrites(d);
    Loads(d);
    Starts(d);
    Joins(d);
    StartOfRun<D>();
    ws := [World(map[], {}, {}, {})];
    ws := RunOn(ws, Join(2, 1, d), Empty(2, 1, d));
    ws := RunOn(ws, Write(2, d, 0), Owner(1, 2, d));
    ws := RunOn(ws, Load(1, 2, 1, d, 0), Reader(Old(d), map[2 := VectorBucket(1, 0)], 0, d));
    ws := RunOn(ws, Write(2, d, 0), Owner(3, 4, d));
    ws := RunOn(ws, TickClock(2, 0), Owner(3, 5, d));
    ws := Reported(ws, 2);
    ws := RunOn(ws, TickClock(1, 0), Reader(Old(d), map[2 := VectorBucket(1, 0), 1 := VectorBucket(2, 0)], 0, d));
    ws := AskedAndAnswered(ws, d);
  }

  lemma Reported<D(!new)>(ws: seq<World<D>>, i: Key) returns (longer: seq<World<D>>)
    requires IsRun(ws) && i in ws[|ws| - 1].nodes
    ensures IsRun(longer) && longer != [] && (IsTimelyRun(ws) ==> IsTimelyRun(longer))
    ensures
      var (w, w') := (ws[|ws| - 1], longer[|longer| - 1]);
      && w'.nodes == w.nodes && w'.reports == w.reports + {(i, StateOf(w.nodes[i]))}
      && w'.requests == w.requests && w'.answers == w.answers
  {
    hide StateOf;
    var w := ws[|ws| - 1];
    hide IsRun, IsTimelyRun;
    longer := RunOn(ws, Report(i), w.nodes[i]);
    assert w.nodes[i := w.nodes[i]] == w.nodes;
  }

  lemma AskedAndAnswered<D(!new)>(ws: seq<World<D>>, d: D) returns (longer: seq<World<D>>)
    requires IsRun(ws)
    requires
      var w := ws[|ws| - 1];
      && w.nodes == map[2 := Owner(3, 5, d), 1 := Reader(Old(d), map[2 := VectorBucket(1, 0), 1 := VectorBucket(2, 0)], 0, d)]
      && w.reports == {(2 as Key, StateOf(Owner(3, 5, d)))} && w.requests == {} && w.answers == {}
    ensures IsRun(longer) && longer != [] && (IsTimelyRun(ws) ==> IsTimelyRun(longer))
    ensures
      var w := longer[|longer| - 1];
      && w.nodes == map[2 := Owner(3, 5, d), 1 := Reader(Old(d), map[2 := VectorBucket(5, 0), 1 := VectorBucket(2, 0)], 0, d)]
      && w.answers == {Sent(0, NewAnswer(d))}
  {
    hide IsRun, IsTimelyRun, Put, Tick, ClockMerge, Replica.Merge, StateOf, SnapshotFor, Difference;
    Joins(d);
    Asks(d);
    Replies(d);
    var s := Reader(Old(d), map[2 := VectorBucket(1, 0), 1 := VectorBucket(2, 0)], 0, d);
    var report := (2 as Key, StateOf(Owner(3, 5, d)));
    var q := Request(2, 0, report.1, {2}, {});
    longer := RunOn(ws, Ask(1, StateOf(s), report), s);
    assert q in longer[|longer| - 1].requests;
    longer := RunOn(longer, MergeClock(1, report, 0), Reader(Old(d), map[2 := VectorBucket(5, 0), 1 := VectorBucket(2, 0)], 0, d));
    longer := RunOn(longer, Reply(2, q), Owner(3, 5, d));
  }

  /** It happens: replica 1 holds an old entry of 2 and is in a session for the newer one; more than the stale
      time passes before the answer is merged, and meanwhile 1 writes and prunes 2. The old entry is
      collected, the newer one comes back below the bound, and the clock refuses to know of it. */
  lemma PruneInsideSession<D(!new)>(d: D) returns (ws: seq<World<D>>, t: nat, n: Sent<D>)
    ensures IsRun(ws) && |ws| == t + 3 && 1 in ws[t].nodes && 1 in ws[t + 1].nodes && 1 in ws[t + 2].nodes
    ensures ws[t + 1] == Apply(ws[t], PruneNode(1)) && 2 in ws[t].nodes[1].add && Stale(ws[t].nodes[1].clock) == {2}
    ensures n in ws[t].answers && n.asked == 0 && ws[t + 2] == Apply(ws[t + 1], MergeAnswer(1, n, 100))
    ensures
      var (pruned, merged) := (ws[t + 1].nodes[1], ws[t + 2].nodes[1]);
      && 2 !in pruned.add && Returns(pruned.add, merged.add, 2, merged.clock.highestStale) && 2 !in merged.clock.vectors
  {
    hide IsRun, IsTimelyRun, Put, Replica.Merge, Prune, Stale;
    WritesLate(d);
    Prunes(d);
    MergesLate(d);
    n := Sent(0, NewAnswer(d));
    ws := UpToTheAnswer(d);
    hide Apply;
    ws := RunOn(ws, Write(1, d, 100), Reader(Both(d), map[2 := VectorBucket(5, 0), 1 := VectorBucket(7, 100)], 0, d));
    t := |ws| - 1;
    var before := ws;
    ws := RunOn(ws, PruneNode(1), Reader(map[1 := Bucket(6, d, false)], map[1 := VectorBucket(7, 100)], 5, d));
    ws := RunOn(ws, MergeAnswer(1, n, 100), Reader(Back(d), map[1 := VectorBucket(7, 100)], 5, d));
  }

  /** A timely run in which a replica does prune another: the same one, had the answer not come. */
  lemma TimelyPrune<D(!new)>(d: D) returns (ws: seq<World<D>>, t: nat)
    ensures IsTimelyRun(ws) && |ws| == t + 2 && 1 in ws[t].nodes && 1 in ws[t + 1].nodes
    ensures ws[t + 1] == Apply(ws[t], PruneNode(1)) && Stale(ws[t].nodes[1].clock) == {2}
    ensures 2 in ws[t].nodes[1].add && 2 !in ws[t + 1].nodes[1].add
  {
    hide IsRun, IsTimelyRun, Put, Prune, Stale;
    WritesLate(d);
    Prunes(d);
    ws := UpToTheAnswer(d);
    hide Apply;
    ws := RunOn(ws, Write(1, d, 100), Reader(Both(d), map[2 := VectorBucket(5, 0), 1 := VectorBucket(7, 100)], 0, d));
    t := |ws| - 1;
    ws := RunOn(ws, PruneNode(1), Reader(map[1 := Bucket(6, d, false)], map[1 := VectorBucket(7, 100)], 5, d));
  }

  // ---- A replica that prunes itself ----

  /** What replica 1 holds after writing at these stamps and nothing else. */
  function Writer<D>(stamp: nat, clock: nat, d: D): Store<D> {
    Reader(map[1 := Bucket(stamp, d, false)], map[1 := VectorBucket(clock, 0)], 0, d)
  }

  lemma WriterWrites<D>(stamp: nat, clock: nat, d: D)
    ensures Put(Writer(stamp, clock, d), 1, d, 0) == Writer(clock + 1, clock + 2, d)
  {
    TopIs(Writer(stamp, clock, d).clock, 1);
    WriteGives(Writer(stamp, clock, d), d, 0, clock);
    hide Put, MaxClock;
  }

  lemma WriterStarts<D>(d: D)
    ensures Put(Empty(1, 1, d), 1, d, 0) == Writer(1, 2, d)
    ensures Writer(5, 6, d).(clock := Tick(Writer(5, 6, d).clock, 0)) == Writer(5, 7, d)
  {
    var e: Store<D> := Empty(1, 1, d);
    NoTop(e.clock);
    WriteGives(e, d, 0, 0);
    TopIs(Writer(5, 6, d).clock, 1);
    hide Put, MaxClock;
  }

  function Overdue<D>(d: D): Store<D> {
    Reader(map[1 := Bucket(5, d, false)], map[1 := VectorBucket(7, 0), 2 := VectorBucket(2, 100)], 0, d)
  }

  lemma JoinsLate<D>(d: D)
    ensures Writer(5, 7, d).(clock := ClockMerge(Writer(5, 7, d).clock, StateOf(Owner(1, 2, d)).vectors, 100)) == Overdue(d)
  {
    assert StateOf(Owner(1, 2, d)).vectors == map[2 := 2];
    assert ClockMerge(Writer(5, 7, d).clock, map[2 := 2], 100).vectors == Overdue(d).clock.vectors;
  }

  lemma PrunesItself<D>(d: D)
    ensures
      && Stale(Overdue(d).clock) == {1} && Prune(Overdue(d)) == Reader(map[], map[2 := VectorBucket(2, 100)], 7, d)
      && Put(Reader(map[], map[2 := VectorBucket(2, 100)], 7, d), 1, d, 100)
         == Reader(map[1 := Bucket(3, d, false)], map[2 := VectorBucket(2, 100), 1 := VectorBucket(4, 100)], 7, d)
  {
    var c := Overdue(d).clock;
    var m: map<Key, nat> := Updates(c.vectors);
    assert 2 in m && m[2] == 100;
    MaxUnique(m, 100);
    assert Stale(c) == {1};
    var n := ClocksOf(c, {1});
    assert 1 in n && n[1] == 7;
    MaxUnique(n, 7);
    assert c.vectors - {1} == map[2 := VectorBucket(2, 100)] && Overdue(d).add - {1} == map[];
    var s := Reader(map[], map[2 := VectorBucket(2, 100)], 7, d);
    TopIs(s.clock, 2);
    WriteGives(s, d, 100, 2);
    hide Put, MaxClock;
  }

  /** The run up to the late merge of the peer's clock. */
  lemma UpToTheLateMerge<D(!new)>(d: D) returns (ws: seq<World<D>>)
    ensures IsRun(ws) && ws != [] && 1 in ws[|ws| - 1].nodes && ws[|ws| - 1].nodes[1] == Overdue(d)
  {
    hide IsRun, IsTimelyRun, Put, Tick, ClockMerge, StateOf, Apply;
    WriterStarts(d);
    WriterWrites(1, 2, d);
    WriterWrites(3, 4, d);
    OwnerWrites(d);
    JoinsLate(d);
    StartOfRun<D>();
    ws := [World(map[], {}, {}, {})];
    ws := RunOn(ws, Join(1, 1, d), Empty(1, 1, d));
    ws := RunOn(ws, Write(1, d, 0), Writer(1, 2, d));
    ws := RunOn(ws, Write(1, d, 0), Writer(3, 4, d));
    ws := RunOn(ws, Write(1, d, 0), Writer(5, 6, d));
    ws := RunOn(ws, Join(2, 1, d), Empty(2, 1, d));
    ws := RunOn(ws, Write(2, d, 0), Owner(1, 2, d));
    ws := Reported(ws, 2);
    ws := RunOn(ws, TickClock(1, 0), Writer(5, 7, d));
    ws := RunOn(ws, MergeClock(1, (2 as Key, StateOf(Owner(1, 2, d))), 100), Overdue(d));
  }

  /** It happens: a session in which more than the stale time passes between the own tick and the merge of the
      peer's clock leaves the own entry stale. The replica prunes itself, and its next write carries an
      older stamp than the one every other replica may still hold. */
  lemma OwnPruneRewinds<D(!new)>(d: D) returns (ws: seq<World<D>>, t: nat)
    ensures IsRun(ws) && |ws| == t + 3 && 1 in ws[t].nodes && 1 in ws[t + 2].nodes
    ensures ws[t + 1] == Apply(ws[t], PruneNode(1)) && ws[t + 2] == Apply(ws[t + 1], Write(1, d, 100))
    ensures Stale(ws[t].nodes[1].clock) == {1} && Stamp(ws[t + 2].nodes[1].add, 1) < Stamp(ws[t].nodes[1].add, 1)
  {
    hide IsTimelyRun, Put, Prune, Stale, Apply;
    PrunesItself(d);
    ws := UpToTheLateMerge(d);
    hide IsRun;
    t := |ws| - 1;
    ws := RunOn(ws, PruneNode(1), Reader(map[], map[2 := VectorBucket(2, 100)], 7, d));
    ws := RunOn(ws, Write(1, d, 100), Reader(map[1 := Bucket(3, d, false)], map[2 := VectorBucket(2, 100), 1 := VectorBucket(4, 100)], 7, d));
  }
}
