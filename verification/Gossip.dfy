/** Runs of any number of replicas that never prune, at the level of single method calls. Every message
    ever sent stays in the world and may be delivered to anyone, any number of times or never, so
    these runs contain every interleaving of session rounds, every lost or repeated message, every
    aborted session and every Load. */
module Gossip {
  import opened NatMaps
  import opened Replica
  import opened Causality

  /** `got` and `log` are history: the snapshots each replica has merged, and the data written at each
      key and stamp. No step reads them. */
  datatype World<D(==)> = World(
    nodes: map<Key, Store<D>>,
    snaps: set<Snapshot<D>>,
    states: set<MapState>,
    got: map<Key, set<Snapshot<D>>>,
    log: map<(Key, nat), D>)

  /** A replica writes and removes only the entry of its own key. */
  datatype Action<D> =
    | Join(i: Key, staleTime: nat, zero: D)
    | Write(i: Key, data: D, now: nat)
    | Leave(i: Key, now: nat)
    | MarkNode(i: Key, k: Key)
    | TickClock(i: Key, now: nat)
    | SendState(i: Key)
    | SendSnapshot(i: Key, addKeys: set<Key>, remKeys: set<Key>)
    | MergeClock(i: Key, state: MapState, now: nat)
    | MergeSnapshot(i: Key, snap: Snapshot<D>, now: nat)

  ghost predicate Enabled<D>(w: World<D>, a: Action<D>) {
    if a.Join? then a.i !in w.nodes else
    && a.i in w.nodes
    && match a {
         case Leave(i, _) => Contains(w.nodes[i], i)
         case MergeClock(_, state, _) => state in w.states
         case MergeSnapshot(_, snap, _) => snap in w.snaps
         case _ => true
       }
  }

  ghost function Apply<D>(w: World<D>, a: Action<D>): World<D>
    requires Enabled(w, a)
  {
    match a
    case Join(i, staleTime, zero) =>
      w.(nodes := w.nodes[i := Empty(i, staleTime, zero)], got := w.got[i := {}])
    case Write(i, data, now) =>
      w.(nodes := w.nodes[i := Put(w.nodes[i], i, data, now)],
         log := w.log[(i, MaxClock(w.nodes[i].clock) + 1) := data])
    case Leave(i, now) =>
      w.(nodes := w.nodes[i := Remove(w.nodes[i], i, now)])
    case MarkNode(i, k) =>
      w.(nodes := w.nodes[i := Mark(w.nodes[i], k)])
    case TickClock(i, now) =>
      w.(nodes := w.nodes[i := w.nodes[i].(clock := Tick(w.nodes[i].clock, now))])
    case SendState(i) =>
      w.(states := w.states + {StateOf(w.nodes[i])})
    case SendSnapshot(i, addKeys, remKeys) =>
      w.(snaps := w.snaps + {SnapshotFor(w.nodes[i], addKeys, remKeys)})
    case MergeClock(i, state, now) =>
      w.(nodes := w.nodes[i := w.nodes[i].(clock := ClockMerge(w.nodes[i].clock, state.vectors, now))])
    case MergeSnapshot(i, snap, now) =>
      w.(nodes := w.nodes[i := Merge(w.nodes[i], snap, now)],
         got := if i in w.got then w.got[i := w.got[i] + {snap}] else w.got)
  }

  ghost predicate Init<D>(w: World<D>) {
    w == World(map[], {}, {}, map[], map[])
  }

  ghost predicate Step<D(!new)>(w: World<D>, w': World<D>) {
    exists a :: Enabled(w, a) && w' == Apply(w, a)
  }

  ghost predicate IsRun<D(!new)>(ws: seq<World<D>>) {
    && ws != [] && Init(ws[0])
    && forall t :: 0 <= t < |ws| - 1 ==> Step(ws[t], ws[t + 1])
  }

  // ---- The invariant ----

  // How far the owner of a key has come.

  ghost function OwnAdd<D>(w: World<D>, k: Key): nat {
    if k in w.nodes then Stamp(w.nodes[k].add, k) else 0
  }

  ghost function OwnRem<D>(w: World<D>, k: Key): nat {
    if k in w.nodes then Stamp(w.nodes[k].rem, k) else 0
  }

  ghost function OwnClock<D>(w: World<D>, k: Key): nat {
    if k in w.nodes then ClockAt(w.nodes[k].clock, k) else 0
  }

  /** The bucket holds what the owner of its key wrote at its stamp. */
  ghost predicate Written<D>(w: World<D>, k: Key, b: Bucket<D>) {
    && b.vector <= OwnAdd(w, k)
    && (k, b.vector) in w.log && w.log[(k, b.vector)] == b.contents
  }

  ghost predicate AddOk<D>(w: World<D>, m: map<Key, Bucket<D>>) {
    forall k :: k in m && 0 < m[k].vector ==> Written(w, k, m[k])
  }

  ghost predicate RemOk<D>(w: World<D>, m: map<Key, Bucket<bool>>) {
    forall k :: k in m && 0 < m[k].vector ==> m[k].contents && m[k].vector <= OwnRem(w, k)
  }

  ghost predicate ClocksOk<D>(w: World<D>, vs: map<Key, nat>) {
    forall k :: At(vs, k) <= OwnClock(w, k)
  }

  ghost predicate NodeOk<D>(w: World<D>, i: Key, s: Store<D>) {
    && s.clock.self == i && s.clock.highestStale == 0
    && Stamped(s) && OwnAhead(s)
    && AddOk(w, s.add) && RemOk(w, s.rem) && (forall k :: ClockAt(s.clock, k) <= OwnClock(w, k))
  }

  ghost predicate Inv<D>(w: World<D>) {
    && (forall i :: i in w.nodes ==> NodeOk(w, i, w.nodes[i]))
    && (forall snap :: snap in w.snaps ==> AddOk(w, snap.add) && RemOk(w, snap.rem))
    && (forall st :: st in w.states ==> ClocksOk(w, st.vectors))
    && (forall k, v :: (k, v) in w.log ==> v <= OwnAdd(w, k))
  }

  lemma InvNode<D>(w: World<D>, i: Key)
    requires Inv(w) && i in w.nodes
    ensures NodeOk(w, i, w.nodes[i])
  {}

  /** What a step never takes back: no owner falls behind, and no logged write is rewritten. */
  ghost predicate Later<D>(w: World<D>, w': World<D>) {
    && (forall k :: OwnAdd(w, k) <= OwnAdd(w', k))
    && (forall k :: OwnRem(w, k) <= OwnRem(w', k))
    && (forall k :: OwnClock(w, k) <= OwnClock(w', k))
    && (forall kv :: kv in w.log ==> kv in w'.log && w'.log[kv] == w.log[kv])
  }

  lemma LogBelowOwn<D>(w: World<D>, k: Key, v: nat)
    requires Inv(w) && OwnAdd(w, k) < v
    ensures (k, v) !in w.log
  {}

  lemma LaterAdd<D>(w: World<D>, w': World<D>, m: map<Key, Bucket<D>>)
    requires Later(w, w') && AddOk(w, m)
    ensures AddOk(w', m)
  {
    forall k | k in m && 0 < m[k].vector ensures Written(w', k, m[k]) {
      assert Written(w, k, m[k]);
      assert OwnAdd(w, k) <= OwnAdd(w', k);
    }
  }

  lemma LaterNode<D>(w: World<D>, w': World<D>, i: Key, s: Store<D>)
    requires Later(w, w') && NodeOk(w, i, s)
    ensures NodeOk(w', i, s)
  {
    LaterAdd(w, w', s.add);
  }

  lemma LaterMessages<D>(w: World<D>, w': World<D>)
    requires Later(w, w') && Inv(w)
    ensures forall snap :: snap in w.snaps ==> AddOk(w', snap.add) && RemOk(w', snap.rem)
    ensures forall st :: st in w.states ==> ClocksOk(w', st.vectors)
  {
    forall snap | snap in w.snaps ensures AddOk(w', snap.add) && RemOk(w', snap.rem) {
      LaterAdd(w, w', snap.add);
    }
  }

  /** A step that changes one store keeps the invariant when the new store has it. */
  lemma UpdateKeeps<D>(w: World<D>, w': World<D>, i: Key)
    requires Inv(w) && i in w.nodes && Later(w, w')
    requires i in w'.nodes && w'.nodes == w.nodes[i := w'.nodes[i]]
    requires w'.snaps == w.snaps && w'.states == w.states
    requires NodeOk(w', i, w'.nodes[i])
    requires forall k, v :: (k, v) in w'.log ==> (k, v) in w.log || (k == i && v <= OwnAdd(w', i))
    ensures Inv(w')
  {
    LaterMessages(w, w');
    forall j | j in w'.nodes ensures NodeOk(w', j, w'.nodes[j]) {
      if j != i {
        LaterNode(w, w', j, w.nodes[j]);
      }
    }
  }

  /** The new world differs from the old in replica i's store, and perhaps in the log. */
  ghost predicate Changes<D>(w: World<D>, w': World<D>, i: Key) {
    && i in w.nodes && i in w'.nodes && w'.nodes == w.nodes[i := w'.nodes[i]]
    && w'.snaps == w.snaps && w'.states == w.states
  }

  lemma OwnLater<D>(w: World<D>, w': World<D>, i: Key)
    requires Changes(w, w', i)
    requires OwnAdd(w, i) <= OwnAdd(w', i) && OwnRem(w, i) <= OwnRem(w', i) && OwnClock(w, i) <= OwnClock(w', i)
    requires forall kv :: kv in w.log ==> kv in w'.log && w'.log[kv] == w.log[kv]
    ensures Later(w, w')
  {
    forall k ensures OwnAdd(w, k) <= OwnAdd(w', k) && OwnRem(w, k) <= OwnRem(w', k) && OwnClock(w, k) <= OwnClock(w', k) {
      if k != i && k in w.nodes {
        assert w'.nodes[k] == w.nodes[k];
      }
    }
  }

  /** A write by the owner under a stamp above all its earlier ones. */
  lemma WriteKeeps<D>(w: World<D>, w': World<D>, i: Key, v: nat, data: D)
    requires Inv(w) && Changes(w, w', i) && w'.log == w.log[(i, v) := data] && OwnAdd(w, i) < v
    requires var s, s' := w.nodes[i], w'.nodes[i];
      && s'.add == s.add[i := Bucket(v, data, false)] && s'.rem == s.rem
      && Stamped(s') && OwnAhead(s') && s'.clock.self == i && s'.clock.highestStale == 0
      && (forall k :: k != i ==> ClockAt(s'.clock, k) == ClockAt(s.clock, k))
      && ClockAt(s.clock, i) <= ClockAt(s'.clock, i)
    ensures Later(w, w') && Inv(w')
  {
    hide Inv;
    var s, s' := w.nodes[i], w'.nodes[i];
    InvNode(w, i);
    LogBelowOwn(w, i, v);
    OwnLater(w, w', i);
    LaterNode(w, w', i, s);
    forall k | k in s'.add && 0 < s'.add[k].vector ensures Written(w', k, s'.add[k]) {
      if k != i {
        assert Written(w', k, s.add[k]);
      }
    }
    UpdateKeeps(w, w', i);
  }

  /** A removal by the owner, or a tick of its clock. */
  lemma LeaveKeeps<D>(w: World<D>, w': World<D>, i: Key, v: nat)
    requires Inv(w) && Changes(w, w', i) && w'.log == w.log && OwnRem(w, i) <= v
    requires var s, s' := w.nodes[i], w'.nodes[i];
      && s'.add == s.add && (s'.rem == s.rem || s'.rem == s.rem[i := Bucket(v, true, false)])
      && Stamped(s') && OwnAhead(s') && s'.clock.self == i && s'.clock.highestStale == 0
      && (forall k :: k != i ==> ClockAt(s'.clock, k) == ClockAt(s.clock, k))
      && ClockAt(s.clock, i) <= ClockAt(s'.clock, i)
    ensures Later(w, w') && Inv(w')
  {
    hide Inv;
    var s, s' := w.nodes[i], w'.nodes[i];
    InvNode(w, i);
    OwnLater(w, w', i);
    LaterNode(w, w', i, s);
    UpdateKeeps(w, w', i);
  }

  /** A merge of sound values, which by the invariant cannot touch what the replica itself owns. */
  lemma MergeKeeps<D>(w: World<D>, w': World<D>, i: Key)
    requires Inv(w) && Changes(w, w', i) && w'.log == w.log
    requires var s, s' := w.nodes[i], w'.nodes[i];
      && Stamped(s') && s'.clock.self == i && s'.clock.highestStale == 0
      && Stamp(s'.add, i) == Stamp(s.add, i) && Stamp(s'.rem, i) == Stamp(s.rem, i)
      && ClockAt(s'.clock, i) == ClockAt(s.clock, i)
      && AddOk(w, s'.add) && RemOk(w, s'.rem) && (forall k :: ClockAt(s'.clock, k) <= OwnClock(w, k))
    ensures Later(w, w') && Inv(w')
  {
    hide Inv;
    var s, s' := w.nodes[i], w'.nodes[i];
    InvNode(w, i);
    OwnLater(w, w', i);
    assert NodeOk(w, i, s');
    LaterNode(w, w', i, s');
    UpdateKeeps(w, w', i);
  }

  lemma MergeAddOk<D>(w: World<D>, m: map<Key, Bucket<D>>, s: map<Key, Bucket<D>>)
    requires AddOk(w, m) && AddOk(w, s)
    ensures AddOk(w, MergeMap(m, s))
  {
    forall k | k in MergeMap(m, s) && 0 < MergeMap(m, s)[k].vector ensures Written(w, k, MergeMap(m, s)[k]) {
      assert Written(w, k, if k in s && Stamp(m, k) < s[k].vector then s[k] else m[k]);
    }
  }

  lemma MergeRemOk<D>(w: World<D>, m: map<Key, Bucket<bool>>, s: map<Key, Bucket<bool>>)
    requires RemOk(w, m) && RemOk(w, s)
    ensures RemOk(w, MergeMap(m, s))
  {}

  lemma OwnStampBelowClock<D>(w: World<D>, k: Key)
    requires Inv(w)
    ensures OwnAdd(w, k) <= OwnClock(w, k) && OwnRem(w, k) <= OwnClock(w, k)
  {
    assert k in w.nodes ==> NodeOk(w, k, w.nodes[k]);
  }

  lemma AddBelowOwn<D>(w: World<D>, m: map<Key, Bucket<D>>, k: Key)
    requires AddOk(w, m)
    ensures Stamp(m, k) <= OwnAdd(w, k)
  {
    assert k in m && 0 < m[k].vector ==> Written(w, k, m[k]);
  }

  lemma MergeSnapshotKeeps<D>(w: World<D>, w': World<D>, i: Key, snap: Snapshot<D>, now: nat)
    requires Inv(w) && Changes(w, w', i) && w'.log == w.log && AddOk(w, snap.add) && RemOk(w, snap.rem)
    requires w'.nodes[i] == Merge(w.nodes[i], snap, now)
    ensures Later(w, w') && Inv(w')
  {
    hide Inv, AddOk, RemOk, Stamped, OwnAhead, MergeMap, ClockMerge;
    var s, s' := w.nodes[i], w'.nodes[i];
    InvNode(w, i);
    MergeStamped(s, snap, now);
    MergeAddOk(w, s.add, snap.add);
    MergeRemOk(w, s.rem, snap.rem);
    MergeClockAt(s, snap, now);
    MergeMapAt(s.add, snap.add);
    MergeMapAt(s.rem, snap.rem);
    forall k
      ensures ClockAt(s'.clock, k) <= OwnClock(w, k)
      ensures Stamp(snap.add, k) <= OwnAdd(w, k) && Stamp(snap.rem, k) <= OwnRem(w, k)
    {
      OwnStampBelowClock(w, k);
      AddBelowOwn(w, snap.add, k);
      RemBelowOwn(w, snap.rem, k);
      assert ClockAt(s.clock, k) <= OwnClock(w, k);
    }
    MergeKeeps(w, w', i);
  }

  lemma RemBelowOwn<D>(w: World<D>, m: map<Key, Bucket<bool>>, k: Key)
    requires RemOk(w, m)
    ensures Stamp(m, k) <= OwnRem(w, k)
  {}

  lemma JoinKeeps<D>(w: World<D>, w': World<D>, i: Key, staleTime: nat, zero: D)
    requires Inv(w) && i !in w.nodes && w'.nodes == w.nodes[i := Empty(i, staleTime, zero)]
    requires w'.snaps == w.snaps && w'.states == w.states && w'.log == w.log
    ensures Later(w, w') && Inv(w')
  {
    forall k ensures OwnAdd(w, k) == OwnAdd(w', k) && OwnRem(w, k) == OwnRem(w', k) && OwnClock(w, k) == OwnClock(w', k) {
      if k != i && k in w.nodes {
        assert w'.nodes[k] == w.nodes[k];
      }
    }
    LaterMessages(w, w');
    forall j | j in w'.nodes ensures NodeOk(w', j, w'.nodes[j]) {
      if j != i {
        LaterNode(w, w', j, w.nodes[j]);
      }
    }
  }

  /** Sending changes no store; what is sent is as sound as the store it is read from. */
  lemma SendKeeps<D>(w: World<D>, w': World<D>, i: Key)
    requires Inv(w) && i in w.nodes && w'.nodes == w.nodes && w'.log == w.log
    requires forall snap :: snap in w'.snaps ==> snap in w.snaps || (AddOk(w, snap.add) && RemOk(w, snap.rem))
    requires forall st :: st in w'.states ==> st in w.states || ClocksOk(w, st.vectors)
    ensures Later(w, w') && Inv(w')
  {
    LaterMessages(w, w');
    forall j | j in w'.nodes ensures NodeOk(w', j, w'.nodes[j]) {
      LaterNode(w, w', j, w.nodes[j]);
    }
    forall snap | snap in w'.snaps ensures AddOk(w', snap.add) && RemOk(w', snap.rem) {
      if snap !in w.snaps {
        LaterAdd(w, w', snap.add);
      }
    }
  }

  lemma OwnWriteKeeps<D>(w: World<D>, w': World<D>, i: Key, data: D, now: nat)
    requires Inv(w) && Changes(w, w', i) && w'.nodes[i] == Put(w.nodes[i], i, data, now)
    requires w'.log == w.log[(i, MaxClock(w.nodes[i].clock) + 1) := data]
    ensures Later(w, w') && Inv(w')
  {
    hide Inv;
    var s := w.nodes[i];
    InvNode(w, i);
    ClockBelowMax(s.clock, i);
    PutStamp(s, i, data, now);
    PutKeeps(s, data, now);
    WriteKeeps(w, w', i, MaxClock(s.clock) + 1, data);
  }

  lemma OwnLeaveKeeps<D>(w: World<D>, w': World<D>, i: Key, now: nat)
    requires Inv(w) && Changes(w, w', i) && w'.log == w.log && Contains(w.nodes[i], i)
    requires w'.nodes[i] == Remove(w.nodes[i], i, now)
    ensures Later(w, w') && Inv(w')
  {
    hide Inv;
    var s := w.nodes[i];
    InvNode(w, i);
    ClockBelowMax(s.clock, i);
    RemoveKeeps(s, now);
    LeaveKeeps(w, w', i, MaxClock(s.clock));
  }

  lemma OwnTickKeeps<D>(w: World<D>, w': World<D>, i: Key, now: nat)
    requires Inv(w) && Changes(w, w', i) && w'.log == w.log
    requires w'.nodes[i] == w.nodes[i].(clock := Tick(w.nodes[i].clock, now))
    ensures Later(w, w') && Inv(w')
  {
    hide Inv;
    var s := w.nodes[i];
    InvNode(w, i);
    ClockBelowMax(s.clock, i);
    TickKeeps(s, now);
    LeaveKeeps(w, w', i, OwnRem(w, i));
  }

  lemma RaisedClockStamped<D>(s: Store<D>, c: Clock)
    requires Stamped(s) && Positive(c) && forall k :: ClockAt(s.clock, k) <= ClockAt(c, k)
    ensures Stamped(s.(clock := c))
  {}

  lemma MergeClockKeeps<D>(w: World<D>, w': World<D>, i: Key, vs: map<Key, nat>, now: nat)
    requires Inv(w) && Changes(w, w', i) && w'.log == w.log && ClocksOk(w, vs)
    requires w'.nodes[i] == w.nodes[i].(clock := ClockMerge(w.nodes[i].clock, vs, now))
    ensures Later(w, w') && Inv(w')
  {
    hide Inv, AddOk, RemOk, OwnAhead, ClockMerge, Later, Seen;
    var s := w.nodes[i];
    InvNode(w, i);
    ClockMergeAt(s.clock, vs, now);
    RaisedClockStamped(s, ClockMerge(s.clock, vs, now));
    hide Stamped;
    assert At(vs, i) <= OwnClock(w, i);
    MergeKeeps(w, w', i);
  }

  lemma MarkAddOk<D>(w: World<D>, s: Store<D>, k: Key)
    requires AddOk(w, s.add)
    ensures AddOk(w, Mark(s, k).add)
  {
    assert k in s.add && 0 < s.add[k].vector ==> Written(w, k, s.add[k]);
  }

  lemma MarkKeeps<D>(w: World<D>, w': World<D>, i: Key, k: Key)
    requires Inv(w) && Changes(w, w', i) && w'.log == w.log && w'.nodes[i] == Mark(w.nodes[i], k)
    ensures Later(w, w') && Inv(w')
  {
    hide Inv, RemOk, AddOk;
    var s := w.nodes[i];
    InvNode(w, i);
    MarkAddOk(w, s, k);
    MergeKeeps(w, w', i);
  }

  lemma StepKeeps<D>(w: World<D>, a: Action<D>)
    requires Inv(w) && Enabled(w, a)
    ensures Later(w, Apply(w, a)) && Inv(Apply(w, a))
  {
    hide Inv, Later, Stamped, Put, Remove, Mark, Tick, Merge, ClockMerge;
    var w', i := Apply(w, a), a.i;
    match a
    case Join(_, staleTime, zero) => JoinKeeps(w, w', i, staleTime, zero);
    case Write(_, data, now) => OwnWriteKeeps(w, w', i, data, now);
    case Leave(_, now) => OwnLeaveKeeps(w, w', i, now);
    case MarkNode(_, k) => MarkKeeps(w, w', i, k);
    case TickClock(_, now) => OwnTickKeeps(w, w', i, now);
    case MergeClock(_, state, now) =>
      LaterMessages(w, w);
      MergeClockKeeps(w, w', i, state.vectors, now);
    case MergeSnapshot(_, snap, now) =>
      LaterMessages(w, w);
      MergeSnapshotKeeps(w, w', i, snap, now);
    case _ =>
      InvNode(w, i);
      assert ClocksOk(w, StateOf(w.nodes[i]).vectors);
      SendKeeps(w, w', i);
  }
}
