/** Runs of any number of replicas where rounds of sessions, prunes and loads interleave freely: what must
    hold for a pruned entry to stay away. */
module SteadyRuns {
  import opened NatMaps
  import opened Replica
  import opened Causality
  import Gossip
  import opened Sessions
  import opened Pruning

  /** `theirs` is a state that `to` once reported; the keys are those asked for under the bound `asked`. */
  datatype Request = Request(to: Key, asked: nat, theirs: MapState, addKeys: set<Key>, remKeys: set<Key>)

  datatype Sent<D> = Sent(asked: nat, snap: Snapshot<D>)

  /** Every message ever sent stays, and anyone may receive it at any time, or never. */
  datatype World<D(==)> = World(nodes: map<Key, Store<D>>, reports: set<(Key, MapState)>,
                                requests: set<Request>, answers: set<Sent<D>>)

  datatype Action<D> =
    | Join(i: Key, staleTime: nat, zero: D)
    | Load(i: Key, j: Key, staleTime: nat, zero: D, now: nat)
    | Write(i: Key, data: D, now: nat)
    | Leave(i: Key, now: nat)
    | MarkNode(i: Key, k: Key)
    | TickClock(i: Key, now: nat)
    | PruneNode(i: Key)
    | Report(i: Key)
    | Ask(i: Key, mine: MapState, report: (Key, MapState))
    | MergeClock(i: Key, report: (Key, MapState), now: nat)
    | Reply(i: Key, request: Request)
    | MergeAnswer(i: Key, answer: Sent<D>, now: nat)

  ghost predicate Enabled<D>(w: World<D>, a: Action<D>) {
    match a
    case Join(i, _, _) => i !in w.nodes
    case Load(i, j, _, _, _) => i !in w.nodes && j in w.nodes
    case Leave(i, _) => i in w.nodes && Contains(w.nodes[i], i)
    case Ask(i, _, report) => i in w.nodes && report in w.reports
    case MergeClock(i, report, _) => i in w.nodes && report in w.reports
    case Reply(i, request) => i in w.nodes && request in w.requests && request.to == i
    case MergeAnswer(i, answer, _) => i in w.nodes && answer in w.answers
    case _ => a.i in w.nodes
  }

  /** The two things a run must avoid: merging under another bound than the request was made under, and a
      replica pruning itself. */
  ghost predicate Steady<D>(w: World<D>, a: Action<D>)
    requires Enabled(w, a)
  {
    && (a.MergeAnswer? ==> a.answer.asked == w.nodes[a.i].clock.highestStale)
    && (a.PruneNode? ==> a.i !in Stale(w.nodes[a.i].clock))
  }

  /** What an action leaves at replica i. */
  ghost function NodeAfter<D>(w: World<D>, a: Action<D>): Store<D>
    requires Enabled(w, a)
  {
    match a
    case Join(i, staleTime, zero) => Empty(i, staleTime, zero)
    case Load(i, j, staleTime, zero, now) => Replica.Merge(Empty(i, staleTime, zero), Snapshot(w.nodes[j].add, w.nodes[j].rem), now)
    case Write(i, data, now) => Put(w.nodes[i], i, data, now)
    case Leave(i, now) => Remove(w.nodes[i], i, now)
    case MarkNode(i, k) => Mark(w.nodes[i], k)
    case TickClock(i, now) => w.nodes[i].(clock := Tick(w.nodes[i].clock, now))
    case PruneNode(i) => Prune(w.nodes[i])
    case MergeClock(i, report, now) => w.nodes[i].(clock := ClockMerge(w.nodes[i].clock, report.1.vectors, now))
    case MergeAnswer(i, answer, now) => Replica.Merge(w.nodes[i], answer.snap, now)
    case _ => w.nodes[a.i]
  }

  ghost function Apply<D>(w: World<D>, a: Action<D>): World<D>
    requires Enabled(w, a)
  {
    var w' := w.(nodes := w.nodes[a.i := NodeAfter(w, a)]);
    match a
    case Report(i) => w'.(reports := w.reports + {(i, StateOf(w.nodes[i]))})
    case Ask(i, mine, report) =>
      var bound := w.nodes[i].clock.highestStale;
      var wanted := Replica.Difference(mine, bound, report.1);
      w'.(requests := w.requests + {Request(report.0, bound, report.1, wanted.add.Keys, wanted.rem.Keys)})
    case Reply(i, request) =>
      w'.(answers := w.answers + {Sent(request.asked, SnapshotFor(w.nodes[i], request.addKeys, request.remKeys))})
    case _ => w'
  }

  ghost predicate SteadyStep<D(!new)>(w: World<D>, w': World<D>) {
    exists a :: Enabled(w, a) && Steady(w, a) && w' == Apply(w, a)
  }

  ghost predicate IsSteadyRun<D(!new)>(ws: seq<World<D>>) {
    && ws != [] && ws[0] == World(map[], {}, {}, {})
    && forall t :: 0 <= t < |ws| - 1 ==> SteadyStep(ws[t], ws[t + 1])
  }

  // ---- The invariant ----

  /** Replica j still has what it reported, or something newer, or has pruned it. */
  ghost predicate StillHas<D>(j: Key, m: map<Key, Bucket<D>>, highestStale: nat, reported: map<Key, nat>) {
    forall k :: k in reported ==>
      reported[k] <= Stamp(m, k) || (k != j && Stamp(m, k) == 0 && reported[k] <= highestStale)
  }

  ghost predicate AskedAbove(keys: set<Key>, theirs: map<Key, nat>, bound: nat) {
    forall k :: k in keys ==> k in theirs && bound < theirs[k]
  }

  ghost predicate AnswersAbove<D>(m: map<Key, Bucket<D>>, bound: nat) {
    forall k :: Stamp(m, k) == 0 || bound < Stamp(m, k)
  }

  ghost predicate NodeOk<D>(i: Key, s: Store<D>) {
    s.clock.self == i && Stamped(s)
  }

  ghost predicate ReportOk<D>(w: World<D>, r: (Key, MapState)) {
    && r.0 in w.nodes
    && StillHas(r.0, w.nodes[r.0].add, w.nodes[r.0].clock.highestStale, r.1.add)
    && StillHas(r.0, w.nodes[r.0].rem, w.nodes[r.0].clock.highestStale, r.1.rem)
  }

  ghost predicate RequestOk<D>(w: World<D>, q: Request) {
    (q.to, q.theirs) in w.reports && AskedAbove(q.addKeys, q.theirs.add, q.asked) && AskedAbove(q.remKeys, q.theirs.rem, q.asked)
  }

  ghost predicate AnswerOk<D>(n: Sent<D>) {
    AnswersAbove(n.snap.add, n.asked) && AnswersAbove(n.snap.rem, n.asked)
  }

  ghost predicate Inv<D>(w: World<D>) {
    && (forall i :: i in w.nodes ==> NodeOk(i, w.nodes[i]))
    && (forall r :: r in w.reports ==> ReportOk(w, r))
    && (forall q :: q in w.requests ==> RequestOk(w, q))
    && (forall n :: n in w.answers ==> AnswerOk(n))
  }

  /** What a steady step may do to one map of replica i: entries grow, other replicas' entries may be pruned
      below the bound, and what appears is above the bound. */
  ghost predicate Follows<D>(i: Key, m: map<Key, Bucket<D>>, m': map<Key, Bucket<D>>, highestStale: nat) {
    forall k ::
      && (Stamp(m, k) <= Stamp(m', k) || (k != i && Stamp(m', k) == 0 && Stamp(m, k) <= highestStale))
      && (k != i && Stamp(m, k) < Stamp(m', k) ==> highestStale < Stamp(m', k))
  }

  ghost predicate StoreFollows<D>(i: Key, s: Store<D>, s': Store<D>) {
    && s.clock.highestStale <= s'.clock.highestStale
    && Follows(i, s.add, s'.add, s'.clock.highestStale) && Follows(i, s.rem, s'.rem, s'.clock.highestStale)
  }

  lemma StillHasOn<D>(j: Key, m: map<Key, Bucket<D>>, h: nat, m': map<Key, Bucket<D>>, h': nat, reported: map<Key, nat>)
    requires StillHas(j, m, h, reported) && Follows(j, m, m', h') && h <= h'
    ensures StillHas(j, m', h', reported)
  {}

  lemma OwnGrows<D>(s: Store<D>, data: D, now: nat)
    requires Stamped(s)
    ensures var i, s' := s.clock.self, Put(s, s.clock.self, data, now); NodeOk(i, s') && StoreFollows(i, s, s')
  {
    PutKeeps(s, data, now);
    PutStamp(s, s.clock.self, data, now);
    PutSelf(s, s.clock.self, data, now);
    PutDominates(s, s.clock.self, data, now);
    hide Stamped, Put;
  }

  lemma OwnRemoved<D>(s: Store<D>, now: nat)
    requires Stamped(s) && Contains(s, s.clock.self)
    ensures var i, s' := s.clock.self, Remove(s, s.clock.self, now); NodeOk(i, s') && StoreFollows(i, s, s')
  {
    RemoveKeeps(s, now);
    RemoveSelf(s, s.clock.self, now);
    ClockBelowMax(s.clock, s.clock.self);
    assert Stamp(s.rem, s.clock.self) <= ClockAt(s.clock, s.clock.self);
  }

  lemma PruneFollows<D>(s: Store<D>)
    requires Stamped(s) && s.clock.self !in Stale(s.clock)
    ensures NodeOk(s.clock.self, Prune(s)) && StoreFollows(s.clock.self, s, Prune(s))
  {
    hide Stamped, ClockPrune;
    PruneStamped(s);
    PruneSelf(s);
    PruneCoherent(s);
    forall k ensures k in Stale(s.clock) ==>
      Stamp(s.add, k) <= Prune(s).clock.highestStale && Stamp(s.rem, k) <= Prune(s).clock.highestStale
    {
      PruneRecords(s, k);
    }
    PruneRecords(s, s.clock.self);
  }

  lemma AnswerFollows<D>(s: Store<D>, snap: Snapshot<D>, now: nat)
    requires Stamped(s) && AnswersAbove(snap.add, s.clock.highestStale) && AnswersAbove(snap.rem, s.clock.highestStale)
    ensures var s' := Replica.Merge(s, snap, now); NodeOk(s.clock.self, s') && StoreFollows(s.clock.self, s, s')
  {
    hide MergeMap, ClockMerge, Seen;
    var s' := Replica.Merge(s, snap, now);
    MergeCovers(s, snap, now);
    MergeSelf(s, snap, now);
    MergeSeen(s.add, snap.add, s.clock, s'.clock);
    MergeSeen(s.rem, snap.rem, s.clock, s'.clock);
    MergeMapAt(s.add, snap.add);
    MergeMapAt(s.rem, snap.rem);
  }

  lemma ClockFollows<D>(s: Store<D>, vs: map<Key, nat>, now: nat)
    requires Stamped(s)
    ensures var s' := s.(clock := ClockMerge(s.clock, vs, now)); NodeOk(s.clock.self, s') && StoreFollows(s.clock.self, s, s')
  {
    hide ClockMerge;
    ClockMergeCovers(s.clock, vs, now);
    Gossip.RaisedClockStamped(s, ClockMerge(s.clock, vs, now));
  }

  lemma MarkFollows<D>(s: Store<D>, k: Key)
    requires Stamped(s)
    ensures NodeOk(s.clock.self, Mark(s, k)) && StoreFollows(s.clock.self, s, Mark(s, k))
  {
    MarkStamped(s, k);
  }

  lemma ItselfFollows<D>(i: Key, s: Store<D>)
    ensures StoreFollows(i, s, s)
  {}

  lemma NodeFollows<D>(w: World<D>, a: Action<D>)
    requires Inv(w) && Enabled(w, a) && Steady(w, a)
    ensures NodeOk(a.i, NodeAfter(w, a))
    ensures a.i in w.nodes ==> StoreFollows(a.i, w.nodes[a.i], NodeAfter(w, a))
  {
    hide Stamped, Put, Remove, Prune, Replica.Merge, ClockMerge, Tick, StoreFollows, Stale;
    if a.i in w.nodes {
      assert NodeOk(a.i, w.nodes[a.i]);
      ItselfFollows(a.i, w.nodes[a.i]);
    }
    match a
    case Join(i, staleTime, zero) => FreshStamped(i, staleTime, zero);
    case Load(i, j, staleTime, zero, now) =>
      var e: Store<D> := Empty(i, staleTime, zero);
      FreshStamped(i, staleTime, zero);
      MergeStamped(e, Snapshot(w.nodes[j].add, w.nodes[j].rem), now);
      MergeSelf(e, Snapshot(w.nodes[j].add, w.nodes[j].rem), now);
    case Write(i, data, now) => OwnGrows(w.nodes[i], data, now);
    case Leave(i, now) => OwnRemoved(w.nodes[i], now);
    case MarkNode(i, k) => MarkFollows(w.nodes[i], k);
    case TickClock(i, now) =>
      TickKeeps(w.nodes[i], now);
      TickHighest(w.nodes[i].clock, now);
      TickFollows(w.nodes[i], now);
    case PruneNode(i) => PruneFollows(w.nodes[i]);
    case MergeClock(i, report, now) => ClockFollows(w.nodes[i], report.1.vectors, now);
    case MergeAnswer(i, answer, now) =>
      assert AnswerOk(answer);
      AnswerFollows(w.nodes[i], answer.snap, now);
    case _ =>
  }

  lemma TickFollows<D>(s: Store<D>, now: nat)
    ensures StoreFollows(s.clock.self, s, s.(clock := Tick(s.clock, now)))
  {}

  lemma ReplyAbove<D>(w: World<D>, i: Key, q: Request)
    requires Inv(w) && q in w.requests && q.to == i && i in w.nodes
    ensures AnswerOk(Sent(q.asked, SnapshotFor(w.nodes[i], q.addKeys, q.remKeys)))
  {
    assert RequestOk(w, q) && ReportOk(w, (q.to, q.theirs));
  }

  lemma ReportedHas<D>(i: Key, s: Store<D>)
    ensures StillHas(i, s.add, s.clock.highestStale, StateOf(s).add) && StillHas(i, s.rem, s.clock.highestStale, StateOf(s).rem)
  {}

  lemma AskedIsAbove(mine: MapState, bound: nat, theirs: MapState)
    ensures
      var wanted := Replica.Difference(mine, bound, theirs);
      AskedAbove(wanted.add.Keys, theirs.add, bound) && AskedAbove(wanted.rem.Keys, theirs.rem, bound)
  {}

  lemma ReportsStay<D>(w: World<D>, a: Action<D>, r: (Key, MapState))
    requires Inv(w) && Enabled(w, a) && Steady(w, a) && r in w.reports
    ensures ReportOk(Apply(w, a), r)
  {
    hide NodeAfter, StillHas, Follows, NodeOk;
    NodeFollows(w, a);
    assert ReportOk(w, r);
    if r.0 == a.i {
      var s, s' := w.nodes[a.i], NodeAfter(w, a);
      StillHasOn(a.i, s.add, s.clock.highestStale, s'.add, s'.clock.highestStale, r.1.add);
      StillHasOn(a.i, s.rem, s.clock.highestStale, s'.rem, s'.clock.highestStale, r.1.rem);
    }
  }

  lemma StepKeeps<D>(w: World<D>, a: Action<D>)
    requires Inv(w) && Enabled(w, a) && Steady(w, a)
    ensures Inv(Apply(w, a))
  {
    hide NodeOk, ReportOk, AnswerOk, Steady, Stale, NodeAfter, AskedAbove;
    var w' := Apply(w, a);
    NodeFollows(w, a);
    forall r | r in w'.reports ensures ReportOk(w', r) {
      if r in w.reports {
        ReportsStay(w, a, r);
      } else {
        FreshReport(w, a);
      }
    }
    forall q | q in w'.requests ensures RequestOk(w', q) {
      if q in w.requests {
        assert RequestOk(w, q);
      } else {
        AskedIsAbove(a.mine, w.nodes[a.i].clock.highestStale, a.report.1);
      }
    }
    forall n | n in w'.answers ensures AnswerOk(n) {
      if n !in w.answers {
        ReplyAbove(w, a.i, a.request);
      }
    }
  }

  lemma FreshReport<D>(w: World<D>, a: Action<D>)
    requires Enabled(w, a) && a.Report?
    ensures ReportOk(Apply(w, a), (a.i, StateOf(w.nodes[a.i])))
  {
    hide StillHas;
    ReportedHas(a.i, w.nodes[a.i]);
  }

  lemma {:induction false} RunInv<D(!new)>(ws: seq<World<D>>, t: nat)
    requires IsSteadyRun(ws) && t < |ws|
    ensures Inv(ws[t])
  {
    hide Enabled, Steady, Apply;
    if t > 0 {
      hide Inv;
      RunInv(ws, t - 1);
      var a := ActionAt(ws, t - 1);
      StepKeeps(ws[t - 1], a);
    }
  }

  lemma ActionAt<D(!new)>(ws: seq<World<D>>, t: nat) returns (a: Action<D>)
    requires IsSteadyRun(ws) && t + 1 < |ws|
    ensures Enabled(ws[t], a) && Steady(ws[t], a) && ws[t + 1] == Apply(ws[t], a)
  {
    hide Enabled, Steady, Apply;
    assert SteadyStep(ws[t], ws[t + 1]);
    a :| Enabled(ws[t], a) && Steady(ws[t], a) && ws[t + 1] == Apply(ws[t], a);
  }

  lemma BarredOn<D>(w: World<D>, a: Action<D>, i: Key, k: Key, h: nat)
    requires Inv(w) && Enabled(w, a) && Steady(w, a) && i in w.nodes && k != i && Barred(w.nodes[i], k, h)
    ensures i in Apply(w, a).nodes && Barred(Apply(w, a).nodes[i], k, h)
  {
    NodeFollows(w, a);
    if i == a.i {
      var s' := NodeAfter(w, a);
      assert Stamped(s') by { assert NodeOk(i, s'); }
      BarredFollows(i, w.nodes[i], s', k, h);
    }
  }

  lemma BarredFollows<D>(i: Key, s: Store<D>, s': Store<D>, k: Key, h: nat)
    requires StoreFollows(i, s, s') && Stamped(s') && k != i && Barred(s, k, h)
    ensures Barred(s', k, h)
  {
    assert k in s'.add ==> 1 <= Stamp(s'.add, k);
    assert k in s'.rem ==> 1 <= Stamp(s'.rem, k);
  }

  lemma {:induction false} RunBarred<D(!new)>(ws: seq<World<D>>, t: nat, u: nat, i: Key, k: Key, h: nat)
    requires IsSteadyRun(ws) && t <= u < |ws| && i in ws[t].nodes && k != i && Barred(ws[t].nodes[i], k, h)
    ensures i in ws[u].nodes && Barred(ws[u].nodes[i], k, h)
  {
    hide Inv, Barred, Enabled, Steady, Apply, IsSteadyRun;
    if t < u {
      RunBarred(ws, t, u - 1, i, k, h);
      RunInv(ws, u - 1);
      var a := ActionAt(ws, u - 1);
      BarredOn(ws[u - 1], a, i, k, h);
    }
  }

  /** In every run of arbitrarily interleaved rounds, writes, loads and prunes that merges only under the
      bound it asked under, and in which no replica prunes itself: what a replica prunes at or below the
      recorded highestStale never comes back there. */
  lemma SteadyPrunesLast<D(!new)>(ws: seq<World<D>>, t: nat, u: nat, i: Key, k: Key)
    requires IsSteadyRun(ws) && t < u < |ws| && i in ws[t].nodes && Steady(ws[t], PruneNode(i))
    requires ws[t + 1] == Apply(ws[t], PruneNode(i)) && k in Stale(ws[t].nodes[i].clock)
    ensures i in ws[t + 1].nodes && i in ws[u].nodes
    ensures
      var h := ws[t + 1].nodes[i].clock.highestStale;
      && Stamp(ws[t].nodes[i].add, k) <= h && Stamp(ws[t].nodes[i].rem, k) <= h
      && Barred(ws[u].nodes[i], k, h)
  {
    hide IsSteadyRun, Stamped;
    var s := ws[t].nodes[i];
    RunInv(ws, t);
    assert NodeOk(i, s);
    PruneRecords(s, k);
    PruneCoherent(s);
    assert ws[t + 1].nodes[i] == Prune(s);
    assert Barred(Prune(s), k, Prune(s).clock.highestStale);
    RunBarred(ws, t + 1, u, i, k, Prune(s).clock.highestStale);
  }

  // ---- When no replica prunes itself ----

  /** A merge under the bound its request was made under. */
  ghost predicate UnderItsBound<D>(w: World<D>, a: Action<D>)
    requires Enabled(w, a)
  {
    a.MergeAnswer? ==> a.answer.asked == w.nodes[a.i].clock.highestStale
  }

  ghost predicate NotAhead(c: Clock, now: nat) {
    forall k :: k in c.vectors ==> c.vectors[k].lastUpdate <= now
  }

  ghost predicate WithinStaleTime(c: Clock, now: nat) {
    NotAhead(c, now) && (c.self in c.vectors ==> now <= c.vectors[c.self].lastUpdate + c.staleTime)
  }

  /** Time never falls at a replica, and it merges no later than its stale time after its own last tick, which
      a session makes as it starts. */
  ghost predicate Timely<D>(w: World<D>, a: Action<D>)
    requires Enabled(w, a)
  {
    match a
    case Write(i, _, now) => NotAhead(w.nodes[i].clock, now)
    case Leave(i, now) => NotAhead(w.nodes[i].clock, now)
    case TickClock(i, now) => NotAhead(w.nodes[i].clock, now)
    case MergeClock(i, _, now) => WithinStaleTime(w.nodes[i].clock, now)
    case MergeAnswer(i, _, now) => WithinStaleTime(w.nodes[i].clock, now)
    case _ => true
  }

  ghost predicate TimelyStep<D(!new)>(w: World<D>, w': World<D>) {
    exists a :: Enabled(w, a) && UnderItsBound(w, a) && Timely(w, a) && w' == Apply(w, a)
  }

  ghost predicate IsTimelyRun<D(!new)>(ws: seq<World<D>>) {
    && ws != [] && ws[0] == World(map[], {}, {}, {})
    && forall t :: 0 <= t < |ws| - 1 ==> TimelyStep(ws[t], ws[t + 1])
  }

  /** No entry is fresher than the own one by more than the stale time. */
  ghost predicate OwnFresh(c: Clock) {
    c.self in c.vectors ==> forall k :: k in c.vectors ==> c.vectors[k].lastUpdate <= c.vectors[c.self].lastUpdate + c.staleTime
  }

  lemma OwnFreshNotStale(c: Clock)
    requires OwnFresh(c)
    ensures c.self !in Stale(c)
  {
    if c.self in c.vectors {
      var m: map<Key, nat> := Updates(c.vectors);
      if Freshest(c) != 0 {
        var k :| k in m && m[k] == Freshest(c);
      }
    }
  }

  lemma TickFresh(c: Clock, n: nat, now: nat)
    requires NotAhead(c, now)
    ensures OwnFresh(c.(vectors := c.vectors[c.self := VectorBucket(n, now)]))
  {}

  lemma MergeFresh(c: Clock, vs: map<Key, nat>, now: nat)
    requires OwnFresh(c) && WithinStaleTime(c, now)
    ensures OwnFresh(ClockMerge(c, vs, now)) && WithinStaleTime(ClockMerge(c, vs, now), now)
    ensures ClockMerge(c, vs, now).self == c.self
  {}

  lemma LoadFresh<D>(e: Store<D>, snap: Snapshot<D>, now: nat)
    requires e.clock.vectors == map[]
    ensures OwnFresh(Replica.Merge(e, snap, now).clock)
  {
    var c := ClockMerge(e.clock, Stamps(snap.add), now);
    assert forall k :: k in c.vectors ==> c.vectors[k].lastUpdate == now;
  }

  lemma NodeFresh<D>(w: World<D>, a: Action<D>)
    requires Enabled(w, a) && Timely(w, a)
    requires a.i in w.nodes ==> w.nodes[a.i].clock.self == a.i && OwnFresh(w.nodes[a.i].clock)
    ensures OwnFresh(NodeAfter(w, a).clock)
  {
    hide Put, ClockMerge, MergeMap, OwnFresh, WithinStaleTime, NotAhead;
    match a
    case Join(i, staleTime, zero) => FreshEmpty(i, staleTime, zero);
    case Load(i, j, staleTime, zero, now) =>
      var e: Store<D> := Empty(i, staleTime, zero);
      LoadFresh(e, Snapshot(w.nodes[j].add, w.nodes[j].rem), now);
    case Write(i, data, now) =>
      var s := w.nodes[i];
      PutStamp(s, i, data, now);
      PutSelf(s, i, data, now);
      PutStaleTime(s, i, data, now);
      TickFresh(s.clock, MaxClock(s.clock) + 2, now);
    case Leave(i, now) => TickFresh(w.nodes[i].clock, MaxClock(w.nodes[i].clock) + 1, now);
    case TickClock(i, now) => TickFresh(w.nodes[i].clock, MaxClock(w.nodes[i].clock) + 1, now);
    case PruneNode(i) => PruneFresh(w.nodes[i].clock);
    case MergeClock(i, report, now) => MergeFresh(w.nodes[i].clock, report.1.vectors, now);
    case MergeAnswer(i, answer, now) =>
      MergeFresh(w.nodes[i].clock, Stamps(answer.snap.add), now);
      MergeFresh(ClockMerge(w.nodes[i].clock, Stamps(answer.snap.add), now), Stamps(answer.snap.rem), now);
    case _ =>
  }

  lemma FreshEmpty<D>(i: Key, staleTime: nat, zero: D)
    ensures OwnFresh(Empty(i, staleTime, zero).clock)
  {}

  lemma PruneFresh(c: Clock)
    requires OwnFresh(c)
    ensures OwnFresh(ClockPrune(c))
  {}

  lemma PutStaleTime<D>(s: Store<D>, k: Key, d: D, now: nat)
    ensures Put(s, k, d, now).clock.staleTime == s.clock.staleTime
    ensures k == s.clock.self ==> Put(s, k, d, now).clock == s.clock.(vectors := s.clock.vectors[k := VectorBucket(MaxClock(s.clock) + 2, now)])
  {
    PutStamp(s, k, d, now);
  }

  ghost predicate AllFresh<D>(w: World<D>) {
    forall i :: i in w.nodes ==> w.nodes[i].clock.self == i && OwnFresh(w.nodes[i].clock)
  }

  lemma FreshStep<D>(w: World<D>, a: Action<D>)
    requires Inv(w) && AllFresh(w) && Enabled(w, a) && UnderItsBound(w, a) && Timely(w, a)
    ensures Steady(w, a) && Inv(Apply(w, a)) && AllFresh(Apply(w, a))
  {
    if a.PruneNode? {
      OwnFreshNotStale(w.nodes[a.i].clock);
    }
    hide Inv, OwnFresh, Stale, Timely, NodeAfter, NodeOk, Apply, Enabled;
    StepKeeps(w, a);
    NodeFresh(w, a);
    AfterApply(w, a);
    InvSelf(Apply(w, a), a.i);
  }

  lemma AfterApply<D>(w: World<D>, a: Action<D>)
    requires Enabled(w, a)
    ensures Apply(w, a).nodes == w.nodes[a.i := NodeAfter(w, a)]
  {
    hide NodeAfter;
  }

  lemma InvSelf<D>(w: World<D>, i: Key)
    requires Inv(w) && i in w.nodes
    ensures w.nodes[i].clock.self == i
  {
    assert NodeOk(i, w.nodes[i]);
  }

  /** Timely runs are steady: a replica that keeps time never finds itself stale. */
  lemma {:induction false} TimelyIsSteady<D(!new)>(ws: seq<World<D>>)
    requires IsTimelyRun(ws)
    ensures IsSteadyRun(ws) && Inv(ws[|ws| - 1]) && AllFresh(ws[|ws| - 1])
  {
    hide Inv, AllFresh, Enabled, Timely, Steady, Apply, UnderItsBound;
    if |ws| == 1 {
      FreshStart(ws[0]);
    } else {
      var init := ws[..|ws| - 1];
      forall t | 0 <= t < |init| - 1 ensures TimelyStep(init[t], init[t + 1]) {
        assert TimelyStep(ws[t], ws[t + 1]);
      }
      TimelyIsSteady(init);
      var w := ws[|ws| - 2];
      assert TimelyStep(ws[|ws| - 2], ws[|ws| - 2 + 1]);
      var a :| Enabled(w, a) && UnderItsBound(w, a) && Timely(w, a) && ws[|ws| - 1] == Apply(w, a);
      FreshStep(w, a);
      forall t | 0 <= t < |ws| - 1 ensures SteadyStep(ws[t], ws[t + 1]) {
        assert t < |ws| - 2 ==> SteadyStep(init[t], init[t + 1]);
      }
    }
  }

  lemma FreshStart<D>(w: World<D>)
    requires w == World(map[], {}, {}, {})
    ensures Inv(w) && AllFresh(w)
  {}

  /** So in every timely run what a replica prunes never comes back there below the recorded bound. */
  lemma TimelyPrunesLast<D(!new)>(ws: seq<World<D>>, t: nat, u: nat, i: Key, k: Key)
    requires IsTimelyRun(ws) && t < u < |ws| && i in ws[t].nodes
    requires ws[t + 1] == Apply(ws[t], PruneNode(i)) && k in Stale(ws[t].nodes[i].clock)
    ensures i in ws[t + 1].nodes && i in ws[u].nodes && k != i
    ensures
      var h := ws[t + 1].nodes[i].clock.highestStale;
      && Stamp(ws[t].nodes[i].add, k) <= h && Stamp(ws[t].nodes[i].rem, k) <= h
      && Barred(ws[u].nodes[i], k, h)
  {
    hide IsSteadyRun, Apply, Inv, Stale, Barred, OwnFresh;
    var init := ws[..t + 1];
    forall s | 0 <= s < |init| - 1 ensures TimelyStep(init[s], init[s + 1]) {
      assert TimelyStep(ws[s], ws[s + 1]);
    }
    TimelyIsSteady(init);
    TimelyIsSteady(ws);
    assert init[|init| - 1] == ws[t];
    OwnFreshNotStale(ws[t].nodes[i].clock);
    SteadyPrunesLast(ws, t, u, i, k);
  }
}
