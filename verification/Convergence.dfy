/** What every run of the gossip world keeps: replicas only advance, a session's rounds may interleave
    with anything, and replicas that merged the same snapshots agree. */
module Convergence {
  import opened NatMaps
  import opened Replica
  import opened Causality
  import opened Gossip
  import opened Syncers

  // ---- Invariants over runs ----

  lemma {:induction false} RunInv<D(!new)>(ws: seq<World<D>>, t: nat)
    requires IsRun(ws) && t < |ws|
    ensures Inv(ws[t])
  {
    if t > 0 {
      RunInv(ws, t - 1);
      assert Step(ws[t - 1], ws[t - 1 + 1]);
      var a :| Enabled(ws[t - 1], a) && ws[t] == Apply(ws[t - 1], a);
      StepKeeps(ws[t - 1], a);
    }
  }

  /** No stamp and no clock of the replica has fallen. */
  ghost predicate Advances<D>(s: Store<D>, s': Store<D>) {
    && (forall k :: Stamp(s.add, k) <= Stamp(s'.add, k))
    && (forall k :: Stamp(s.rem, k) <= Stamp(s'.rem, k))
    && (forall k :: ClockAt(s.clock, k) <= ClockAt(s'.clock, k))
  }

  lemma PutAdvances<D>(s: Store<D>, d: D, now: nat)
    requires Stamped(s)
    ensures Advances(s, Put(s, s.clock.self, d, now))
  {
    PutStamp(s, s.clock.self, d, now);
    PutDominates(s, s.clock.self, d, now);
  }

  lemma RemoveAdvances<D>(s: Store<D>, now: nat)
    requires Stamped(s)
    ensures Advances(s, Remove(s, s.clock.self, now))
    ensures Advances(s, s.(clock := Tick(s.clock, now)))
  {
    ClockBelowMax(s.clock, s.clock.self);
  }

  lemma MergeAdvances<D>(s: Store<D>, snap: Snapshot<D>, now: nat)
    requires s.clock.highestStale == 0
    ensures Advances(s, Merge(s, snap, now))
  {
    hide MergeMap, ClockMerge;
    MergeClockAt(s, snap, now);
    MergeMapAt(s.add, snap.add);
    MergeMapAt(s.rem, snap.rem);
  }

  lemma StepAdvances<D>(w: World<D>, a: Action<D>, i: Key)
    requires Inv(w) && Enabled(w, a) && i in w.nodes
    ensures i in Apply(w, a).nodes && Advances(w.nodes[i], Apply(w, a).nodes[i])
  {
    hide Inv, AddOk, RemOk, OwnAhead, Stamped, MergeMap, ClockMerge, Advances;
    var s := w.nodes[i];
    InvNode(w, i);
    AdvancesItself(s);
    if a.i == i {
      match a
      case Write(_, data, now) => PutAdvances(s, data, now);
      case Leave(_, now) => RemoveAdvances(s, now);
      case TickClock(_, now) => RemoveAdvances(s, now);
      case MergeClock(_, state, now) => ClockAdvances(s, state.vectors, now);
      case MergeSnapshot(_, snap, now) => MergeAdvances(s, snap, now);
      case MarkNode(_, k) => MarkAdvances(s, k);
      case _ =>
    }
  }

  lemma AdvancesItself<D>(s: Store<D>)
    ensures Advances(s, s)
  {}

  lemma ClockAdvances<D>(s: Store<D>, vs: map<Key, nat>, now: nat)
    ensures Advances(s, s.(clock := ClockMerge(s.clock, vs, now)))
  {}

  lemma MarkAdvances<D>(s: Store<D>, k: Key)
    ensures Advances(s, Mark(s, k))
  {}

  /** In every run, from any moment to any later one, each replica only advances. */
  lemma {:induction false} RunAdvances<D(!new)>(ws: seq<World<D>>, t: nat, u: nat, i: Key)
    requires IsRun(ws) && t <= u < |ws| && i in ws[t].nodes
    ensures i in ws[u].nodes && Advances(ws[t].nodes[i], ws[u].nodes[i])
  {
    hide Inv, Advances;
    if t == u {
      AdvancesItself(ws[t].nodes[i]);
    } else {
      RunAdvances(ws, t, u - 1, i);
      RunInv(ws, u - 1);
      assert Step(ws[u - 1], ws[u - 1 + 1]);
      var a :| Enabled(ws[u - 1], a) && ws[u] == Apply(ws[u - 1], a);
      StepAdvances(ws[u - 1], a, i);
      AdvancesOn(ws[t].nodes[i], ws[u - 1].nodes[i], ws[u].nodes[i]);
    }
  }

  lemma AdvancesOn<D>(s: Store<D>, s': Store<D>, s'': Store<D>)
    requires Advances(s, s') && Advances(s', s'')
    ensures Advances(s, s'')
  {}

  // ---- Interleaved sessions ----

  /** One direction of a session whose rounds fall anywhere in a run: b recorded its own state at `pb` and
      at `q` compared it with the one a sent at `pa`; a answered from its live maps at `x`; b merged the
      answer at `m`. Whatever both replicas did in between, b ends no older than a was at `pa`. */
  lemma InterleavedSession<D(!new)>(ws: seq<World<D>>, a: Key, b: Key,
                                    pa: nat, pb: nat, q: nat, x: nat, m: nat, end: nat, now: nat)
    requires IsRun(ws) && pa <= x && pb <= q <= m < end && x < |ws| && end < |ws|
    requires a in ws[pa].nodes && a in ws[x].nodes
    requires b in ws[pb].nodes && b in ws[q].nodes && b in ws[m].nodes && b in ws[m + 1].nodes
    requires
      var wanted := Difference(StateOf(ws[pb].nodes[b]), ws[q].nodes[b].clock.highestStale, StateOf(ws[pa].nodes[a]));
      var answer := SnapshotFor(ws[x].nodes[a], wanted.add.Keys, wanted.rem.Keys);
      ws[m + 1].nodes[b] == Merge(ws[m].nodes[b], answer, now)
    ensures b in ws[end].nodes
    ensures forall k :: Stamp(ws[pa].nodes[a].add, k) <= Stamp(ws[end].nodes[b].add, k)
    ensures forall k :: Stamp(ws[pa].nodes[a].rem, k) <= Stamp(ws[end].nodes[b].rem, k)
  {
    hide Inv, IsRun;
    RunInv(ws, q);
    InvNode(ws[q], b);
    RunAdvances(ws, pa, x, a);
    RunAdvances(ws, pb, m, b);
    RunAdvances(ws, m + 1, end, b);
    Delivered(ws[pa].nodes[a], ws[x].nodes[a], ws[pb].nodes[b], ws[m].nodes[b], now);
  }

  lemma Delivered<D>(sent: Store<D>, live: Store<D>, mine: Store<D>, s: Store<D>, now: nat)
    requires Advances(sent, live) && Advances(mine, s)
    ensures
      var wanted := Difference(StateOf(mine), 0, StateOf(sent));
      var s' := Merge(s, SnapshotFor(live, wanted.add.Keys, wanted.rem.Keys), now);
      && (forall k :: Stamp(sent.add, k) <= Stamp(s'.add, k))
      && (forall k :: Stamp(sent.rem, k) <= Stamp(s'.rem, k))
  {
    hide ClockMerge;
    DeliveredMap(sent.add, live.add, mine.add, s.add, live.zero);
    DeliveredMap(sent.rem, live.rem, mine.rem, s.rem, false);
  }

  lemma DeliveredMap<D>(sent: map<Key, Bucket<D>>, live: map<Key, Bucket<D>>,
                        mine: map<Key, Bucket<D>>, m: map<Key, Bucket<D>>, zero: D)
    requires forall k :: Stamp(sent, k) <= Stamp(live, k) && Stamp(mine, k) <= Stamp(m, k)
    ensures
      var wanted := DiffMap(Stamps(mine), 0, Stamps(sent));
      forall k :: Stamp(sent, k) <= Stamp(MergeMap(m, SaveKeys(live, wanted.Keys, zero)), k)
  {
    var wanted := DiffMap(Stamps(mine), 0, Stamps(sent));
    var answer := SaveKeys(live, wanted.Keys, zero);
    MergeMapAt(m, answer);
    forall k ensures Stamp(sent, k) <= Stamp(MergeMap(m, answer), k) {
      assert k in wanted ==> Stamp(answer, k) == Stamp(live, k);
      assert k !in wanted ==> Stamp(sent, k) <= Stamp(mine, k);
    }
  }

  // ---- The rounds of a session are steps of the world ----

  /** What a replica may hold as the last message it received. */
  ghost predicate Known<D>(w: World<D>, msg: Message<D>) {
    && (msg.StateMsg? ==> msg.state in w.states || msg.state.vectors == map[])
    && (msg.SnapshotMsg? ==> msg.snap in w.snaps)
  }

  ghost predicate CanExec<D>(w: World<D>, actions: seq<Action<D>>)
    decreases |actions|
  {
    actions == [] || (Enabled(w, actions[0]) && CanExec(Apply(w, actions[0]), actions[1..]))
  }

  ghost function Exec<D>(w: World<D>, actions: seq<Action<D>>): World<D>
    requires CanExec(w, actions)
    decreases |actions|
  {
    if actions == [] then w else Exec(Apply(w, actions[0]), actions[1..])
  }

  lemma ExecTwo<D>(w: World<D>, a: Action<D>, b: Action<D>)
    requires Enabled(w, a) && Enabled(Apply(w, a), b)
    ensures CanExec(w, [a, b]) && Exec(w, [a, b]) == Apply(Apply(w, a), b)
  {
    assert [a, b][1..] == [b] && [b][1..] == [];
    assert Exec(Apply(w, a), [b]) == Apply(Apply(w, a), b);
  }

  lemma MergeNothing<D>(s: Store<D>, now: nat)
    ensures Merge(s, Snapshot(map[], map[]), now) == s
    ensures ClockMerge(s.clock, map[], now) == s.clock
  {
    assert MergeMap(s.add, map[]) == s.add && MergeMap(s.rem, map[]) == s.rem;
    assert Stamps<D>(map[]) == map[] && Stamps<bool>(map[]) == map[];
  }

  /** Whatever one end of any session does in one round, in any state and after any message, is at most two
      steps of the world on its own store. So the runs above contain all interleavings of all sessions. */
  lemma RoundIsSteps<D>(w: World<D>, i: Key, side: Side<D>, now: nat) returns (actions: seq<Action<D>>)
    requires i in w.nodes && side.store == w.nodes[i] && CanGenerate(side) && Known(w, side.peerMsg)
    ensures |actions| <= 2 && CanExec(w, actions)
    ensures
      var out := Generate(side, now);
      var w' := Exec(w, actions);
      w'.nodes == w.nodes[i := out.side.store] && Known(w', out.msg)
  {
    hide ClockMerge, MergeMap, ClockHash;
    MergeNothing(side.store, now);
    actions := [];
    assert w.nodes == w.nodes[i := w.nodes[i]];
    match side.state
    case HASH =>
    case PREPARE =>
      if AsHash(side.peerMsg) != ClockHash(side.store.clock) {
        var tick, send := TickClock(i, now), SendState(i);
        ExecTwo(w, tick, send);
        actions := [tick, send];
      }
    case PRESENT =>
      if side.peerMsg.StateMsg? && side.peerMsg.state in w.states {
        actions := [MergeClock(i, side.peerMsg.state, now)];
      }
    case EXCHANGE =>
      var wanted := AsState(side.peerMsg);
      actions := [SendSnapshot(i, wanted.add.Keys, wanted.rem.Keys)];
    case MERGE =>
      if side.peerMsg.SnapshotMsg? {
        actions := [MergeSnapshot(i, side.peerMsg.snap, now)];
      }
  }

  // ---- The merge as a join ----

  /** Equal up to Gravestone, which each replica sets for itself. */
  ghost predicate Same<D>(m: map<Key, Bucket<D>>, n: map<Key, Bucket<D>>) {
    && m.Keys == n.Keys
    && forall k :: k in m ==> m[k].vector == n[k].vector && m[k].contents == n[k].contents
  }

  /** The same stamp never carries two contents. */
  ghost predicate Coherent<D>(m: map<Key, Bucket<D>>, n: map<Key, Bucket<D>>) {
    forall k :: k in m && k in n && 0 < m[k].vector == n[k].vector ==> m[k].contents == n[k].contents
  }

  lemma MergeIdempotent<D>(m: map<Key, Bucket<D>>, s: map<Key, Bucket<D>>)
    ensures MergeMap(m, m) == m
    ensures MergeMap(MergeMap(m, s), s) == MergeMap(m, s)
  {}

  lemma AssociativeAt<D>(m: map<Key, Bucket<D>>, n: map<Key, Bucket<D>>, s: map<Key, Bucket<D>>, k: Key)
    ensures
      var l, r := MergeMap(MergeMap(m, n), s), MergeMap(m, MergeMap(n, s));
      (k in l <==> k in r) && (k in l ==> l[k] == r[k])
  {}

  lemma MergeAssociative<D>(m: map<Key, Bucket<D>>, n: map<Key, Bucket<D>>, s: map<Key, Bucket<D>>)
    ensures MergeMap(MergeMap(m, n), s) == MergeMap(m, MergeMap(n, s))
  {
    hide MergeMap;
    var l, r := MergeMap(MergeMap(m, n), s), MergeMap(m, MergeMap(n, s));
    forall k ensures (k in l <==> k in r) && (k in l ==> l[k] == r[k]) {
      AssociativeAt(m, n, s, k);
    }
  }

  lemma MergeCommutes<D>(m: map<Key, Bucket<D>>, n: map<Key, Bucket<D>>)
    requires Coherent(m, n)
    requires (forall k :: k in m ==> 0 < m[k].vector) && (forall k :: k in n ==> 0 < n[k].vector)
    ensures Same(MergeMap(m, n), MergeMap(n, m))
  {}

  /** In every run, any two stores and any two snapshots ever sent are coherent. */
  lemma RunCoherent<D(!new)>(ws: seq<World<D>>, t: nat, m: map<Key, Bucket<D>>, n: map<Key, Bucket<D>>)
    requires IsRun(ws) && t < |ws| && Held(ws[t], m) && Held(ws[t], n)
    ensures Coherent(m, n)
  {
    hide Inv, IsRun;
    RunInv(ws, t);
    HeldOk(ws[t], m);
    HeldOk(ws[t], n);
    forall k | k in m && k in n && 0 < m[k].vector == n[k].vector ensures m[k].contents == n[k].contents {
      assert Written(ws[t], k, m[k]) && Written(ws[t], k, n[k]);
    }
  }

  /** An add map some replica stores or some message carries. */
  ghost predicate Held<D>(w: World<D>, m: map<Key, Bucket<D>>) {
    (exists i :: i in w.nodes && w.nodes[i].add == m) || (exists s :: s in w.snaps && s.add == m)
  }

  lemma HeldOk<D>(w: World<D>, m: map<Key, Bucket<D>>)
    requires Inv(w) && Held(w, m)
    ensures AddOk(w, m)
  {}

  // ---- Strong eventual consistency ----

  /** Replica i's entry at k is the newest among the snapshots it has merged. */
  ghost predicate NewestAdd<D>(w: World<D>, i: Key, k: Key)
    requires i in w.nodes && i in w.got
  {
    var v := Stamp(w.nodes[i].add, k);
    && (forall s :: s in w.got[i] ==> Stamp(s.add, k) <= v)
    && (v == 0 || exists s :: s in w.got[i] && Stamp(s.add, k) == v)
  }

  ghost predicate NewestRem<D>(w: World<D>, i: Key, k: Key)
    requires i in w.nodes && i in w.got
  {
    var v := Stamp(w.nodes[i].rem, k);
    && (forall s :: s in w.got[i] ==> Stamp(s.rem, k) <= v)
    && (v == 0 || exists s :: s in w.got[i] && Stamp(s.rem, k) == v)
  }

  ghost predicate Gathered<D>(w: World<D>) {
    && w.got.Keys == w.nodes.Keys
    && forall i, k :: i in w.nodes && k != i ==> NewestAdd(w, i, k) && NewestRem(w, i, k)
  }

  /** Steps other than i's own merge keep i's foreign entries and what i has merged. */
  lemma NewestStep<D>(w: World<D>, a: Action<D>, i: Key, k: Key)
    requires Enabled(w, a) && i in w.nodes && i in w.got && k != i && w.nodes[i].clock.self == i
    requires NewestAdd(w, i, k) && NewestRem(w, i, k)
    ensures var w' := Apply(w, a); i in w'.nodes && i in w'.got && NewestAdd(w', i, k) && NewestRem(w', i, k)
  {
    hide MergeMap, ClockMerge;
    var w' := Apply(w, a);
    if a.MergeSnapshot? && a.i == i {
      MergeMapAt(w.nodes[i].add, a.snap.add);
      MergeMapAt(w.nodes[i].rem, a.snap.rem);
      assert a.snap in w'.got[i];
    } else {
      assert w'.got[i] == w.got[i];
      assert Stamp(w'.nodes[i].add, k) == Stamp(w.nodes[i].add, k);
      assert Stamp(w'.nodes[i].rem, k) == Stamp(w.nodes[i].rem, k);
    }
  }

  lemma GatheredStep<D>(w: World<D>, a: Action<D>)
    requires Inv(w) && Gathered(w) && Enabled(w, a)
    ensures Gathered(Apply(w, a))
  {
    hide Inv, MergeMap, ClockMerge, NewestAdd, NewestRem;
    var w' := Apply(w, a);
    forall i, k | i in w'.nodes && k != i
      ensures i in w'.got && NewestAdd(w', i, k) && NewestRem(w', i, k)
    {
      if i in w.nodes {
        InvNode(w, i);
        NewestStep(w, a, i, k);
      } else {
        NewestEmpty(w', i, k);
      }
    }
  }

  lemma NewestEmpty<D>(w: World<D>, i: Key, k: Key)
    requires i in w.nodes && i in w.got && w.nodes[i].add == map[] && w.nodes[i].rem == map[] && w.got[i] == {}
    ensures NewestAdd(w, i, k) && NewestRem(w, i, k)
  {}

  lemma {:induction false} RunGathered<D(!new)>(ws: seq<World<D>>, t: nat)
    requires IsRun(ws) && t < |ws|
    ensures Gathered(ws[t])
  {
    hide Inv;
    if t > 0 {
      RunGathered(ws, t - 1);
      RunInv(ws, t - 1);
      assert Step(ws[t - 1], ws[t - 1 + 1]);
      var a :| Enabled(ws[t - 1], a) && ws[t] == Apply(ws[t - 1], a);
      GatheredStep(ws[t - 1], a);
    }
  }

  /** The two stores show a reader the same thing at k. */
  ghost predicate Agree<D>(s: Store<D>, s': Store<D>, k: Key) {
    && (Contains(s, k) <==> Contains(s', k))
    && (Contains(s, k) ==> Get(s, k) == Get(s', k))
  }

  lemma EntryStamped<D>(s: Store<D>, k: Key)
    requires Stamped(s)
    ensures (k in s.add <==> 0 < Stamp(s.add, k)) && (k in s.rem <==> 0 < Stamp(s.rem, k))
  {}

  lemma AddWritten<D>(w: World<D>, m: map<Key, Bucket<D>>, k: Key)
    requires AddOk(w, m) && k in m && 0 < m[k].vector
    ensures (k, m[k].vector) in w.log && w.log[(k, m[k].vector)] == m[k].contents
  {
    assert Written(w, k, m[k]);
  }

  lemma StampsAgree<D>(w: World<D>, i: Key, j: Key, k: Key)
    requires Inv(w) && i in w.nodes && j in w.nodes
    requires Stamp(w.nodes[i].add, k) == Stamp(w.nodes[j].add, k)
    requires Stamp(w.nodes[i].rem, k) == Stamp(w.nodes[j].rem, k)
    ensures Agree(w.nodes[i], w.nodes[j], k)
  {
    hide Inv, Stamped, AddOk, RemOk, OwnAhead, Written;
    InvNode(w, i);
    InvNode(w, j);
    var s, s' := w.nodes[i], w.nodes[j];
    EntryStamped(s, k);
    EntryStamped(s', k);
    if k in s.add {
      AddWritten(w, s.add, k);
      AddWritten(w, s'.add, k);
    }
  }

  /** In every run, two replicas that have merged the same set of snapshots, in any orders and with any
      repetitions, agree at every key owned by neither. */
  lemma SameSnapshotsAgree<D(!new)>(ws: seq<World<D>>, t: nat, i: Key, j: Key, k: Key)
    requires IsRun(ws) && t < |ws|
    requires i in ws[t].nodes && j in ws[t].nodes && i in ws[t].got && j in ws[t].got
    requires ws[t].got[i] == ws[t].got[j] && k != i && k != j
    ensures Agree(ws[t].nodes[i], ws[t].nodes[j], k)
  {
    hide Inv, IsRun;
    RunInv(ws, t);
    RunGathered(ws, t);
    assert NewestAdd(ws[t], i, k) && NewestRem(ws[t], i, k);
    assert NewestAdd(ws[t], j, k) && NewestRem(ws[t], j, k);
    StampsAgree(ws[t], i, j, k);
  }

  /** And a replica agrees with the owner of a key itself exactly at the stamps: it is never ahead of
      the owner, and once level with it shows the owner's entry. */
  lemma OwnerLeads<D(!new)>(ws: seq<World<D>>, t: nat, i: Key, k: Key)
    requires IsRun(ws) && t < |ws| && i in ws[t].nodes && k in ws[t].nodes
    ensures
      var s, own := ws[t].nodes[i], ws[t].nodes[k];
      && Stamp(s.add, k) <= Stamp(own.add, k) && Stamp(s.rem, k) <= Stamp(own.rem, k)
      && (Stamp(s.add, k) == Stamp(own.add, k) && Stamp(s.rem, k) == Stamp(own.rem, k) ==> Agree(s, own, k))
  {
    hide Inv, IsRun;
    RunInv(ws, t);
    InvNode(ws[t], i);
    AddBelowOwn(ws[t], ws[t].nodes[i].add, k);
    RemBelowOwn(ws[t], ws[t].nodes[i].rem, k);
    if Stamp(ws[t].nodes[i].add, k) == Stamp(ws[t].nodes[k].add, k)
       && Stamp(ws[t].nodes[i].rem, k) == Stamp(ws[t].nodes[k].rem, k) {
      StampsAgree(ws[t], i, k, k);
    }
  }

  // ---- Change detection ----

  lemma AdvancesGrows<D>(m: map<Key, Bucket<D>>, n: map<Key, Bucket<D>>)
    requires forall k :: k in m ==> 1 <= Stamp(m, k)
    requires forall k :: k in n ==> 1 <= Stamp(n, k)
    requires forall k :: Stamp(m, k) <= Stamp(n, k)
    ensures Grows(Stamps(m), Stamps(n))
  {
    forall k | k in Stamps(m) ensures k in Stamps(n) && Stamps(m)[k] <= Stamps(n)[k] {
      assert Stamp(m, k) <= Stamp(n, k);
    }
  }

  /** The number HasChanges compares, before it is cut to a machine word. */
  ghost function FullHash<D>(s: Store<D>): nat {
    (Sum(Stamps(s.add)) + 1) * (Sum(Stamps(s.rem)) + 1)
  }

  lemma ProductGrows(a: nat, b: nat, c: nat, d: nat)
    requires a <= c && b <= d
    ensures (a + 1) * (b + 1) <= (c + 1) * (d + 1)
    ensures (a + 1) * (b + 1) == (c + 1) * (d + 1) <==> a == c && b == d
  {
    assert (c + 1) * (d + 1) == (a + 1) * (b + 1) + (a + 1) * (d - b) + (c - a) * (d + 1);
    assert (a + 1) * (d - b) >= d - b && (c - a) * (d + 1) >= c - a;
  }

  lemma FactorsSmall(x: nat, y: nat)
    requires 1 <= x && 1 <= y
    ensures x <= x * y && y <= x * y
  {
    assert x * y == x + x * (y - 1) && x * y == y + (x - 1) * y;
  }

  lemma SmallMod(n: nat)
    requires n < WORD
    ensures n % WORD == n
  {}

  lemma SmallHash<D>(s: Store<D>)
    requires FullHash(s) < WORD
    ensures StoreHash(s) == FullHash(s)
  {
    var x, y := Sum(Stamps(s.add)) + 1, Sum(Stamps(s.rem)) + 1;
    var product := x * y;
    FactorsSmall(x, y);
    SmallMod(x - 1);
    SmallMod(y - 1);
    SmallMod(x);
    SmallMod(y);
    SmallMod(product);
    assert ((MapHash(s.add) + 1) % WORD) == x && ((MapHash(s.rem) + 1) % WORD) == y;
  }

  lemma GrowthShows<D>(s: Store<D>, s': Store<D>)
    requires Grows(Stamps(s.add), Stamps(s'.add)) && Grows(Stamps(s.rem), Stamps(s'.rem))
    ensures FullHash(s) <= FullHash(s')
    ensures FullHash(s) == FullHash(s') <==> Stamps(s.add) == Stamps(s'.add) && Stamps(s.rem) == Stamps(s'.rem)
  {
    hide Grows, Sum, Stamps;
    SumGrows(Stamps(s.add), Stamps(s'.add));
    SumGrows(Stamps(s.rem), Stamps(s'.rem));
    ProductGrows(Sum(Stamps(s.add)), Sum(Stamps(s.rem)), Sum(Stamps(s'.add)), Sum(Stamps(s'.rem)));
  }

  /** The change number of a store with one entry on each side. */
  lemma ChangeNumberOfTwo<D>(s: Store<D>, i: Key, j: Key)
    requires s.add.Keys == {i} && s.rem.Keys == {j} && (s.add[i].vector + 1) * (s.rem[j].vector + 1) < WORD
    ensures StoreHash(s) == (s.add[i].vector + 1) * (s.rem[j].vector + 1)
  {
    var m, n := Stamps(s.add), Stamps(s.rem);
    SumRemove(m, i);
    SumRemove(n, j);
    assert m - {i} == map[] && n - {j} == map[];
    SmallHash(s);
    hide StoreHash;
  }

  /** In every run the change number never decreases, and while it fits a machine word HasChanges answers
      exactly whether some stamp has changed or appeared since SaveChanges. */
  lemma HasChangesExact<D(!new)>(ws: seq<World<D>>, t: nat, u: nat, i: Key)
    requires IsRun(ws) && t <= u < |ws| && i in ws[t].nodes && i in ws[u].nodes
    ensures
      var s, s' := ws[t].nodes[i], ws[u].nodes[i];
      && FullHash(s) <= FullHash(s')
      && (FullHash(s') < WORD ==>
           (StoreHash(s) != StoreHash(s') <==> Stamps(s.add) != Stamps(s'.add) || Stamps(s.rem) != Stamps(s'.rem)))
  {
    hide Inv, IsRun, FullHash, StoreHash, Grows;
    var s, s' := ws[t].nodes[i], ws[u].nodes[i];
    RunInv(ws, t);
    RunInv(ws, u);
    InvNode(ws[t], i);
    InvNode(ws[u], i);
    RunAdvances(ws, t, u, i);
    AdvancesGrows(s.add, s'.add);
    AdvancesGrows(s.rem, s'.rem);
    GrowthShows(s, s');
    if FullHash(s') < WORD {
      SmallHash(s);
      SmallHash(s');
    }
  }
}
