/** The rounds of a session, as steps of the world in which prunes and loads interleave with them. */
module SteadySessions {
  import opened NatMaps
  import opened Replica
  import opened Syncers
  import opened SteadyRuns
  import Convergence

  ghost predicate CanExec<D>(w: World<D>, actions: seq<Action<D>>)
    decreases |actions|
  {
    actions == [] || (Enabled(w, actions[0]) && CanExec(Apply(w, actions[0]), actions[1..]))
  }

  ghost function Exec<D>(w: World<D>, actions: seq<Action<D>>): World<D>
    requires CanExec(w, actions)
    decreases |actions|
  {
    if actions == [] then w else Exec(Apply(w, actions[0]), actions[1..])
  }

  lemma ExecOne<D>(w: World<D>, a: Action<D>)
    requires Enabled(w, a)
    ensures CanExec(w, [a]) && Exec(w, [a]) == Apply(w, a)
  {
    assert [a][1..] == [];
    assert Exec(Apply(w, a), []) == Apply(w, a);
  }

  lemma ExecTwo<D>(w: World<D>, a: Action<D>, b: Action<D>)
    requires Enabled(w, a) && Enabled(Apply(w, a), b)
    ensures CanExec(w, [a, b]) && Exec(w, [a, b]) == Apply(Apply(w, a), b)
  {
    assert [a, b][1..] == [b];
    ExecOne(Apply(w, a), b);
  }

  /** The keys were asked of `to`, or there are none. */
  ghost predicate WasAsked<D>(w: World<D>, to: Key, addKeys: set<Key>, remKeys: set<Key>) {
    (addKeys == {} && remKeys == {}) || exists q :: q in w.requests && q.to == to && q.addKeys == addKeys && q.remKeys == remKeys
  }

  /** The snapshot answers a request that was made under this bound, or is empty. */
  ghost predicate WasSent<D>(w: World<D>, snap: Snapshot<D>, asked: nat) {
    snap == Snapshot(map[], map[]) || Sent(asked, snap) in w.answers
  }

  /** What replica `to` has from `from` when it reads the message in this state. */
  ghost predicate Understood<D>(w: World<D>, from: Key, to: Key, state: SyncState, msg: Message<D>) {
    && (state == PRESENT && msg.StateMsg? ==> (from, msg.state) in w.reports)
    && (state == EXCHANGE && msg.StateMsg? ==> WasAsked(w, to, msg.state.add.Keys, msg.state.rem.Keys))
    && (state == MERGE && msg.SnapshotMsg? ==> exists asked: nat :: WasSent(w, msg.snap, asked))
  }

  /** Whatever replica i does in one round of a session with j is at most two steps on its own store, and leaves
      its message understood. It merges only an answer it was sent. */
  lemma RoundIsSteps<D>(w: World<D>, i: Key, j: Key, side: Side<D>, now: nat) returns (actions: seq<Action<D>>)
    requires i in w.nodes && side.store == w.nodes[i] && CanGenerate(side)
    requires Understood(w, j, i, side.state, side.peerMsg)
    ensures |actions| <= 2 && CanExec(w, actions)
    ensures forall a :: a in actions && a.MergeAnswer? ==>
      side.state == MERGE && side.peerMsg == SnapshotMsg(a.answer.snap)
    ensures
      var out := Generate(side, now);
      var w' := Exec(w, actions);
      w'.nodes == w.nodes[i := out.side.store] && Understood(w', i, j, Next(side.state), out.msg)
  {
    hide ClockHash, ClockMerge, Tick, Replica.Merge, MergeMap, StateOf;
    actions := [];
    assert w.nodes == w.nodes[i := w.nodes[i]];
    match side.state
    case HASH =>
    case PREPARE =>
      if AsHash(side.peerMsg) != ClockHash(side.store.clock) {
        actions := Prepared(w, i, now);
      }
    case PRESENT =>
      actions := Presented(w, i, j, side, now);
    case EXCHANGE =>
      actions := Exchanged(w, i, j, side, now);
    case MERGE =>
      Convergence.MergeNothing(side.store, now);
      if side.peerMsg.SnapshotMsg? && side.peerMsg.snap != Snapshot(map[], map[]) {
        var asked: nat :| WasSent(w, side.peerMsg.snap, asked);
        var merge := MergeAnswer(i, Sent(asked, side.peerMsg.snap), now);
        ExecOne(w, merge);
        actions := [merge];
      }
  }

  lemma Prepared<D>(w: World<D>, i: Key, now: nat) returns (actions: seq<Action<D>>)
    requires i in w.nodes
    ensures |actions| == 2 && CanExec(w, actions) && forall a :: a in actions ==> !a.MergeAnswer?
    ensures
      var ticked := w.nodes[i].(clock := Tick(w.nodes[i].clock, now));
      var w' := Exec(w, actions);
      w'.nodes == w.nodes[i := ticked] && (i, StateOf(ticked)) in w'.reports
  {
    hide Tick, StateOf;
    var tick, report := TickClock(i, now), Report(i);
    ExecTwo(w, tick, report);
    actions := [tick, report];
  }

  lemma Presented<D>(w: World<D>, i: Key, j: Key, side: Side<D>, now: nat) returns (actions: seq<Action<D>>)
    requires i in w.nodes && side.store == w.nodes[i] && side.state == PRESENT && CanGenerate(side)
    requires Understood(w, j, i, PRESENT, side.peerMsg)
    ensures |actions| <= 2 && CanExec(w, actions) && forall a :: a in actions ==> !a.MergeAnswer?
    ensures
      var out := Generate(side, now);
      var w' := Exec(w, actions);
      w'.nodes == w.nodes[i := out.side.store] && Understood(w', i, j, EXCHANGE, out.msg)
  {
    hide ClockMerge, StateOf;
    Convergence.MergeNothing(side.store, now);
    assert w.nodes == w.nodes[i := w.nodes[i]];
    actions := [];
    if side.peerMsg.StateMsg? {
      var report := (j, side.peerMsg.state);
      var ask, merge := Ask(i, side.mapState.value, report), MergeClock(i, report, now);
      ExecTwo(w, ask, merge);
      actions := [ask, merge];
      var bound := w.nodes[i].clock.highestStale;
      var wanted := Replica.Difference(side.mapState.value, bound, report.1);
      var q := Request(j, bound, report.1, wanted.add.Keys, wanted.rem.Keys);
      assert q in Exec(w, actions).requests;
    }
  }

  lemma Exchanged<D>(w: World<D>, i: Key, j: Key, side: Side<D>, now: nat) returns (actions: seq<Action<D>>)
    requires i in w.nodes && side.store == w.nodes[i] && side.state == EXCHANGE && CanGenerate(side)
    requires Understood(w, j, i, EXCHANGE, side.peerMsg)
    ensures |actions| <= 1 && CanExec(w, actions) && forall a :: a in actions ==> !a.MergeAnswer?
    ensures
      var out := Generate(side, now);
      var w' := Exec(w, actions);
      w'.nodes == w.nodes[i := out.side.store] && Understood(w', i, j, MERGE, out.msg)
  {
    assert w.nodes == w.nodes[i := w.nodes[i]];
    actions := [];
    var addKeys, remKeys := AsState(side.peerMsg).add.Keys, AsState(side.peerMsg).rem.Keys;
    var snap := SnapshotFor(side.store, addKeys, remKeys);
    if addKeys == {} && remKeys == {} {
      assert snap == Snapshot(map[], map[]);
      assert WasSent(w, snap, 0);
    } else {
      var q :| q in w.requests && q.to == i && q.addKeys == addKeys && q.remKeys == remKeys;
      var reply := Reply(i, q);
      ExecOne(w, reply);
      actions := [reply];
      assert WasSent(Exec(w, actions), snap, q.asked);
    }
  }

  /** What is understood stays so: no step takes back a message. */
  lemma StaysUnderstood<D>(w: World<D>, a: Action<D>, from: Key, to: Key, state: SyncState, msg: Message<D>)
    requires Enabled(w, a) && Understood(w, from, to, state, msg)
    ensures Understood(Apply(w, a), from, to, state, msg)
  {
    hide NodeAfter;
    var w' := Apply(w, a);
    if state == MERGE && msg.SnapshotMsg? {
      var asked: nat :| WasSent(w, msg.snap, asked);
      assert WasSent(w', msg.snap, asked);
    }
  }
}
