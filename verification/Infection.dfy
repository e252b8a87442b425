/** pkg/sync/syncer.go: how often a change is pushed before a peer falls silent. */
module Infections {
  import opened NatMaps
  import opened Replica
  import opened Syncers
  import opened RouteTables
  import opened Datastores
  import opened Pruning
  import opened Gravestones
  import opened Convergence

  // ---- The count ----

  /** The count after a round. */
  function NextCount(infectionCount: nat, count: nat, succeeded: bool): nat
    requires 0 < infectionCount
  {
    (infectionCount + count - 1) % infectionCount + if succeeded then 0 else 1
  }

  /** How many successful rounds the count still stands for. */
  function Due(infectionCount: nat, count: nat, changed: bool): nat {
    if 0 < count then count else if changed then infectionCount else 0
  }

  /** A round that succeeds takes one from what is due; a round that fails takes nothing and loses nothing. */
  lemma RoundTakes(infectionCount: nat, count: nat, changed: bool, succeeded: bool)
    requires 0 < infectionCount && count <= infectionCount && (changed || 0 < count)
    ensures
      var next := NextCount(infectionCount, count, succeeded);
      && next <= infectionCount
      && Due(infectionCount, next, false) == Due(infectionCount, count, changed) - if succeeded then 1 else 0
  {
    if count == 0 {
      assert (infectionCount - 1) % infectionCount == infectionCount - 1;
    } else {
      assert (infectionCount + (count - 1)) % infectionCount == count - 1 by { Wraps(infectionCount, count - 1); }
    }
  }

  lemma Wraps(n: nat, a: nat)
    requires a < n
    ensures (n + a) % n == a
  {
    assert (n + a) / n == 1;
  }

  // ---- Visits ----

  /** How a stream breaks: closed by the peer, or with an error, for some of which the peer is marked. */
  datatype Ending = Eof | Refused(marks: bool)

  /** One session with a chosen peer: what the peer answers until its stream breaks or the session ends. */
  datatype Visit = Visit(peer: Key, connected: bool, replies: seq<Message<MeshNode>>, ending: Ending)

  predicate KeyedMessage(msg: Message<MeshNode>) {
    msg.SnapshotMsg? ==> forall k :: k in msg.snap.add && 0 < msg.snap.add[k].vector ==>
      msg.snap.add[k].contents.publicKey == k && Keyed(msg.snap.add[k].contents.routes)
  }

  /** Peers answer with well-keyed nodes, and never start with two empty messages, which could make the client panic. */
  predicate Sound(v: Visit) {
    && (2 <= |v.replies| ==> v.replies[0] != NoMessage || v.replies[1] != NoMessage)
    && forall msg :: msg in v.replies ==> KeyedMessage(msg)
  }

  ghost function Session(s: Store<MeshNode>, v: Visit, now: nat): Ended<MeshNode> {
    ClientLoop(Fresh(s), v.replies, now)
  }

  /** The store after a visit. A stream that the peer merely closed counts as an error and marks it too. */
  ghost function AfterVisit(s: Store<MeshNode>, v: Visit, now: nat): Store<MeshNode> {
    if !Contains(s, v.peer) || !v.connected then s else
      var e := Session(s, v, now);
      if e.finish != Completed && (v.ending.Eof? || v.ending.marks) then Replica.Mark(e.side.store, v.peer) else e.side.store
  }

  /** Whether the visit counts as a success. */
  ghost predicate Succeeds(s: Store<MeshNode>, v: Visit, now: nat) {
    Contains(s, v.peer) && v.connected && (Session(s, v, now).finish == Completed || v.ending.Eof?)
  }

  ghost function AfterVisits(s: Store<MeshNode>, visits: seq<Visit>, now: nat): Store<MeshNode> {
    if visits == [] then s else AfterVisit(AfterVisits(s, visits[..|visits| - 1], now), visits[|visits| - 1], now)
  }

  ghost predicate AnySucceeds(s: Store<MeshNode>, visits: seq<Visit>, now: nat) {
    visits != [] &&
    var init := visits[..|visits| - 1];
    AnySucceeds(s, init, now) || Succeeds(AfterVisits(s, init, now), visits[|visits| - 1], now)
  }

  lemma GenerateKeyed(side: Side<MeshNode>, now: nat)
    requires CanGenerate(side) && WellKeyed(side.store) && KeyedMessage(side.peerMsg)
    ensures WellKeyed(Generate(side, now).side.store) && Generate(side, now).side.peerMsg == side.peerMsg
  {
    hide ClockHash, Tick, ClockMerge, StateOf, Replica.Difference, SnapshotFor;
  }

  lemma {:induction false} ClientLoopKeyed(side: Side<MeshNode>, replies: seq<Message<MeshNode>>, now: nat)
    requires WellKeyed(side.store) && KeyedMessage(side.peerMsg) && forall msg :: msg in replies ==> KeyedMessage(msg)
    ensures WellKeyed(ClientLoop(side, replies, now).side.store)
    decreases |replies|
  {
    hide Generate, WellKeyed, KeyedMessage;
    if CanGenerate(side) {
      GenerateKeyed(side, now);
      if replies != [] {
        assert replies[0] in replies && forall msg :: msg in replies[1..] ==> msg in replies;
        ClientLoopKeyed(Receive(Generate(side, now).side, replies[0]), replies[1..], now);
      }
    }
  }

  lemma PruneWellKeyed(s: Store<MeshNode>)
    requires WellKeyed(s)
    ensures WellKeyed(Prune(s))
  {}

  /** With a peer that does not interrupt the session, the visit is that session: a success that leaves the
      session's result. */
  lemma VisitIsSession(s: Store<MeshNode>, peer: Store<MeshNode>, v: Visit, now: nat, peerNow: nat)
    requires Contains(s, v.peer) && v.connected
    requires v.replies == HonestReplies(s, peer, now, peerNow, 0, Length(s, peer))
    ensures Succeeds(s, v, now) && AfterVisit(s, v, now) == Synced(s, peer, now, peerNow)
  {
    hide ClientLoop, SideAfter, HonestReplies, Synced;
    HonestSession(s, peer, now, peerNow, 0, Length(s, peer)) by { AtTheStart(s, peer, now, peerNow); }
    AtTheStart(s, peer, now, peerNow);
    AtTheEnd(s, peer, now, peerNow);
  }

  /** After any visit that got through, successful or not, its peer is marked exactly when the session itself
      left it marked, or the loop did not complete, the stream was closed or broke in a way that counts
      against the peer, and the peer still has an added entry. */
  lemma MarkedByVisitIff(s: Store<MeshNode>, v: Visit, now: nat)
    requires Contains(s, v.peer) && v.connected
    ensures
      var e := Session(s, v, now);
      Marked(AfterVisit(s, v, now).add, v.peer) <==>
        || Marked(e.side.store.add, v.peer)
        || (e.finish != Completed && (v.ending == Eof || v.ending == Refused(true)) && v.peer in e.side.store.add)
  {
    hide Session;
  }

  /** Marks aside, a visit that got through leaves exactly what its session left; any other leaves everything. */
  lemma VisitLeaves(s: Store<MeshNode>, v: Visit, now: nat)
    ensures
      var s', e := AfterVisit(s, v, now), Session(s, v, now).side.store;
      if Contains(s, v.peer) && v.connected
      then s'.clock == e.clock && s'.rem == e.rem && Same(s'.add, e.add)
           && forall k :: k in e.add && k != v.peer ==> s'.add[k] == e.add[k]
      else s' == s
  {
    hide Session;
  }

  /** A visit succeeds exactly when its peer is there and reached, and the session completes or is closed. */
  lemma SucceedsIff(s: Store<MeshNode>, v: Visit, now: nat)
    ensures Succeeds(s, v, now) <==>
      v.connected && Contains(s, v.peer) && (ClientLoop(Fresh(s), v.replies, now).finish == Completed || v.ending == Eof)
  {}

  /** Visit i succeeds on what the visits before it have left. */
  ghost predicate SucceedsAt(s: Store<MeshNode>, visits: seq<Visit>, now: nat, i: nat) {
    i < |visits| && Succeeds(AfterVisits(s, visits[..i], now), visits[i], now)
  }

  lemma SucceedsBefore(s: Store<MeshNode>, visits: seq<Visit>, now: nat, i: nat)
    requires visits != [] && i < |visits| - 1
    ensures SucceedsAt(s, visits[..|visits| - 1], now, i) <==> SucceedsAt(s, visits, now, i)
  {
    hide Succeeds, AfterVisits;
    assert visits[..|visits| - 1][..i] == visits[..i];
  }

  /** A round succeeds exactly when some visit does. */
  lemma {:induction false} AnySucceedsIff(s: Store<MeshNode>, visits: seq<Visit>, now: nat)
    ensures AnySucceeds(s, visits, now) <==> exists i: nat :: SucceedsAt(s, visits, now, i)
  {
    if visits != [] {
      var init := visits[..|visits| - 1];
      AnySucceedsIff(s, init, now);
      assert SucceedsAt(s, visits, now, |visits| - 1) <==> Succeeds(AfterVisits(s, init, now), visits[|visits| - 1], now);
      forall i: nat | i < |visits| - 1 ensures SucceedsAt(s, init, now, i) <==> SucceedsAt(s, visits, now, i) {
        SucceedsBefore(s, visits, now, i);
      }
      assert forall i: nat :: (SucceedsAt(s, init, now, i) ==> i < |init|) && (SucceedsAt(s, visits, now, i) ==> i < |visits|);
      hide SucceedsAt, Succeeds, AfterVisits;
    }
  }

  /** Visits happen in order. */
  lemma AfterVisitsSnoc(s: Store<MeshNode>, visits: seq<Visit>, v: Visit, now: nat)
    ensures AfterVisits(s, [], now) == s
    ensures AfterVisits(s, visits + [v], now) == AfterVisit(AfterVisits(s, visits, now), v, now)
  {
    assert (visits + [v])[..|visits|] == visits;
    hide AfterVisit;
  }

  /** A peer that closes the stream before its first answer: the visit is a success, nothing is exchanged, and
      the peer is marked unreachable. */
  lemma ClosedAtOnce(s: Store<MeshNode>, p: Key, now: nat)
    requires Contains(s, p)
    ensures
      var v := Visit(p, true, [], Eof);
      Sound(v) && Succeeds(s, v, now) && AfterVisit(s, v, now) == Replica.Mark(s, p)
  {
    hide ClockHash;
  }

  /** After a successful visit its peer is marked exactly when the session itself left it marked, or the loop
      did not complete and the peer still has an added entry. */
  lemma MarkedBySuccessIff(s: Store<MeshNode>, v: Visit, now: nat)
    requires Succeeds(s, v, now)
    ensures
      var e := Session(s, v, now);
      Marked(AfterVisit(s, v, now).add, v.peer) <==>
        Marked(e.side.store.add, v.peer) || (e.finish != Completed && v.peer in e.side.store.add)
  {
    hide Session;
  }

  // ---- One round ----

  /** A peer with nothing to push; anything else, even a node already removed from the mesh, pushes. */
  predicate Silent(self: Option<NodeType>, changed: bool, count: nat) {
    self == Some(Peer) && !changed && count == 0
  }

  ghost predicate Unsaved(s: Store<MeshNode>, lastClock: nat) {
    StoreHash(Prune(s)) != lastClock
  }

  ghost function TypeOf(s: Store<MeshNode>, id: Key): Option<NodeType> {
    if Contains(s, id) then Some(s.add[id].contents.nodeType) else None
  }

  datatype Outcome = Idle | PullFailed | Pulled(changed: bool) | Pushed(succeeded: bool)

  class SyncerImpl {
    const infectionLimit: nat
    const pullInterval: nat
    var infectionCount: nat
    var syncCount: nat
    var lastSync: map<MeshId, nat>

    ghost predicate Valid()
      reads this
    {
      0 < infectionLimit && infectionCount <= infectionLimit
    }

    constructor (infectionLimit: nat, pullInterval: nat)
      requires 0 < infectionLimit
      ensures Valid() && infectionCount == 0 && syncCount == 0 && lastSync == map[]
      ensures this.infectionLimit == infectionLimit && this.pullInterval == pullInterval
    {
      this.infectionLimit := infectionLimit;
      this.pullInterval := pullInterval;
      infectionCount := 0;
      syncCount := 0;
      lastSync := map[];
    }

    predicate PullDue(mesh: MeshId, now: nat)
      reads this
    {
      pullInterval != 0 && now - LastOf(lastSync, mesh) > pullInterval
    }

    /** The requester's part: one session with one peer. */
    method VisitOne(mesh: Datastore, v: Visit, now: nat) returns (succeeded: bool)
      requires mesh.Valid() && Sound(v)
      modifies mesh.store.Repr()
      ensures mesh.Valid() && mesh.Value() == AfterVisit(old(mesh.Value()), v, now)
      ensures succeeded <==> Succeeds(old(mesh.Value()), v, now)
    {
      hide ClientLoop, WellKeyed;
      var node := mesh.GetNode(v.peer);
      if node == None || !v.connected {
        return false;
      }
      ClientLoopKeyed(Fresh(mesh.Value()), v.replies, now);
      var client := new TwoPhaseSyncer(mesh.store);
      ClientPanicsIff(mesh.Value(), v.replies, now);
      var finish := ClientSync(client, v.replies, now);
      if finish != Completed && (v.ending.Eof? || v.ending.marks) {
        mesh.Mark(v.peer);
      }
      return finish == Completed || v.ending.Eof?;
    }

    /** The loop over the chosen peers. */
    method VisitAll(mesh: Datastore, visits: seq<Visit>, now: nat) returns (succeeded: bool)
      requires mesh.Valid() && forall v :: v in visits ==> Sound(v)
      modifies mesh.store.Repr()
      ensures mesh.Valid() && mesh.Value() == AfterVisits(old(mesh.Value()), visits, now)
      ensures succeeded <==> AnySucceeds(old(mesh.Value()), visits, now)
    {
      hide AfterVisit, Succeeds, Sound;
      succeeded := false;
      assert visits[..0] == [];
      for i := 0 to |visits|
        invariant mesh.Valid() && mesh.Value() == AfterVisits(old(mesh.Value()), visits[..i], now)
        invariant succeeded <==> AnySucceeds(old(mesh.Value()), visits[..i], now)
      {
        assert visits[..i + 1][..i] == visits[..i];
        assert visits[i] in visits;
        var ok := VisitOne(mesh, visits[i], now);
        succeeded := succeeded || ok;
      }
      assert visits[..|visits|] == visits;
    }

    /** A silent node may still ask one neighbour, if there is any, for what it has. */
    method Pull(mesh: Datastore, neighbour: Option<Visit>, now: nat) returns (outcome: Outcome)
      requires mesh.Valid() && this !in mesh.Repr() && (neighbour.Some? ==> Sound(neighbour.value))
      modifies this`syncCount, this`lastSync, mesh.store.Repr()
      ensures mesh.Valid() && mesh.lastClock == old(mesh.lastClock)
      ensures neighbour == None ==> outcome == Idle && mesh.Value() == old(mesh.Value())
      ensures neighbour.Some? ==> mesh.Value() == AfterVisit(old(mesh.Value()), neighbour.value, now)
      ensures neighbour.Some? ==> (outcome ==
        if Succeeds(old(mesh.Value()), neighbour.value, now) then Pulled(StoreHash(mesh.Value()) != mesh.lastClock) else PullFailed)
      ensures syncCount == old(syncCount) + if outcome.Pulled? then 1 else 0
      ensures lastSync == if outcome.Pulled? then old(lastSync)[mesh.meshId := now] else old(lastSync)
    {
      hide StoreHash, AfterVisit, Succeeds, Sound;
      if neighbour == None {
        return Idle;
      }
      var ok := VisitOne(mesh, neighbour.value, now);
      if !ok {
        return PullFailed;
      }
      lastSync := lastSync[mesh.meshId := now];
      syncCount := syncCount + 1;
      var changed := mesh.HasChanges();
      return Pulled(changed);
    }

    /** The rest of a round that is not silent. */
    method Push(mesh: Datastore, visits: seq<Visit>, now: nat) returns (succeeded: bool)
      requires Valid() && mesh.Valid() && this !in mesh.Repr() && forall v :: v in visits ==> Sound(v)
      modifies this, mesh, mesh.store.Repr()
      ensures Valid() && mesh.Valid()
      ensures succeeded <==> AnySucceeds(old(mesh.Value()), visits, now)
      ensures mesh.Value() == AfterVisits(old(mesh.Value()), visits, now) && mesh.lastClock == StoreHash(mesh.Value())
      ensures infectionCount == NextCount(infectionLimit, old(infectionCount), succeeded)
      ensures syncCount == old(syncCount) + 1 && lastSync == old(lastSync)[mesh.meshId := now]
    {
      hide StoreHash, AfterVisits, AnySucceeds, Sound, Due;
      succeeded := VisitAll(mesh, visits, now);
      syncCount := syncCount + 1;
      RoundTakes(infectionLimit, infectionCount, true, succeeded);
      infectionCount := (infectionLimit + infectionCount - 1) % infectionLimit;
      if !succeeded {
        infectionCount := infectionCount + 1;
      }
      mesh.SaveChanges();
      lastSync := lastSync[mesh.meshId := now];
    }

    /** One round. After a push the mesh has nothing left to push and the count has moved; a silent round
        moves neither, though it may pull. */
    method Sync(mesh: Datastore, selfId: Key, visits: seq<Visit>, neighbour: Option<Visit>, now: nat) returns (outcome: Outcome)
      requires Valid() && mesh.Valid() && this !in mesh.Repr()
      requires (forall v :: v in visits ==> Sound(v)) && (neighbour.Some? ==> Sound(neighbour.value))
      modifies this, mesh, mesh.store.Repr()
      ensures Valid() && mesh.Valid()
      ensures outcome.Pushed? <==>
        !Silent(old(TypeOf(mesh.Value(), selfId)), old(Unsaved(mesh.Value(), mesh.lastClock)), old(infectionCount))
      ensures outcome.Pushed? <==>
        || old(!Contains(mesh.Value(), selfId)) || old(mesh.Value()).add[selfId].contents.nodeType == Client
        || StoreHash(Replica.Prune(old(mesh.Value()))) != old(mesh.lastClock) || old(infectionCount) != 0
      ensures outcome.Pulled? || outcome.PullFailed? <==>
        && !outcome.Pushed? && neighbour.Some? && pullInterval != 0
        && now > pullInterval + if mesh.meshId in old(lastSync) then old(lastSync)[mesh.meshId] else 0
      ensures outcome.Pushed? ==>
        && outcome.succeeded == AnySucceeds(Replica.Prune(old(mesh.Value())), visits, now)
        && mesh.Value() == AfterVisits(Replica.Prune(old(mesh.Value())), visits, now)
        && mesh.lastClock == StoreHash(mesh.Value()) && syncCount == old(syncCount) + 1
        && infectionCount == NextCount(infectionLimit, old(infectionCount), outcome.succeeded)
        && lastSync == old(lastSync)[mesh.meshId := now]
      ensures !outcome.Pushed? ==> infectionCount == old(infectionCount) && mesh.lastClock == old(mesh.lastClock)
      ensures !outcome.Pushed? ==>
        if neighbour.Some? && old(PullDue(mesh.meshId, now))
        then
          && mesh.Value() == AfterVisit(Replica.Prune(old(mesh.Value())), neighbour.value, now)
          && outcome == if Succeeds(Replica.Prune(old(mesh.Value())), neighbour.value, now)
                        then Pulled(StoreHash(mesh.Value()) != mesh.lastClock) else PullFailed
        else outcome == Idle && mesh.Value() == Replica.Prune(old(mesh.Value()))
      ensures !outcome.Pushed? ==> lastSync == if outcome.Pulled? then old(lastSync)[mesh.meshId := now] else old(lastSync)
      ensures !outcome.Pushed? ==> syncCount == old(syncCount) + if outcome.Pulled? then 1 else 0
    {
      hide StoreHash, Replica.Prune, AfterVisits, AnySucceeds, AfterVisit, Succeeds, Sound, WellKeyed, NextCount;
      var self := mesh.GetNode(selfId);
      PruneWellKeyed(mesh.Value());
      mesh.store.Prune();
      var changed := mesh.HasChanges();
      if self.Some? && self.value.nodeType == Peer && !changed && infectionCount == 0 {
        if PullDue(mesh.meshId, now) {
          outcome := Pull(mesh, neighbour, now);
          return;
        }
        return Idle;
      }
      var succeeded := Push(mesh, visits, now);
      return Pushed(succeeded);
    }
  }

  // ---- Runs of rounds over all meshes of one node, which share the count ----

  type MeshIndex = nat

  datatype State = State(count: nat, changed: set<MeshIndex>)

  /** A round of one mesh: what the node is there, whether it pushed with success, and whether something new
      is unsaved in that mesh when the round ends. */
  datatype SyncRound = SyncRound(mesh: MeshIndex, self: Option<NodeType>, succeeded: bool, arrived: bool)

  predicate Opens(s: State, r: SyncRound) {
    !Silent(r.self, r.mesh in s.changed, s.count)
  }

  function After(infectionCount: nat, s: State, r: SyncRound): State
    requires 0 < infectionCount
  {
    State(if Opens(s, r) then NextCount(infectionCount, s.count, r.succeeded) else s.count,
          s.changed - {r.mesh} + if r.arrived then {r.mesh} else {})
  }

  function Run(infectionCount: nat, s: State, rs: seq<SyncRound>): State
    requires 0 < infectionCount
  {
    if rs == [] then s else After(infectionCount, Run(infectionCount, s, rs[..|rs| - 1]), rs[|rs| - 1])
  }

  /** The successful rounds of this mesh while it was not silent. */
  function Pushes(infectionCount: nat, s: State, rs: seq<SyncRound>, m: MeshIndex): nat
    requires 0 < infectionCount
  {
    if rs == [] then 0 else
      var init, r := rs[..|rs| - 1], rs[|rs| - 1];
      Pushes(infectionCount, s, init, m) + if r.mesh == m && r.succeeded && Opens(Run(infectionCount, s, init), r) then 1 else 0
  }

  function OtherPushes(infectionCount: nat, s: State, rs: seq<SyncRound>, m: MeshIndex): nat
    requires 0 < infectionCount
  {
    if rs == [] then 0 else
      var init, r := rs[..|rs| - 1], rs[|rs| - 1];
      OtherPushes(infectionCount, s, init, m) + if r.mesh != m && r.succeeded && Opens(Run(infectionCount, s, init), r) then 1 else 0
  }

  function TotalPushes(infectionCount: nat, s: State, rs: seq<SyncRound>): nat
    requires 0 < infectionCount
  {
    if rs == [] then 0 else
      var init, r := rs[..|rs| - 1], rs[|rs| - 1];
      TotalPushes(infectionCount, s, init) + if r.succeeded && Opens(Run(infectionCount, s, init), r) then 1 else 0
  }

  function Successes(rs: seq<SyncRound>): nat {
    if rs == [] then 0 else Successes(rs[..|rs| - 1]) + if rs[|rs| - 1].succeeded then 1 else 0
  }

  function Min(a: nat, b: nat): nat {
    if a <= b then a else b
  }

  /** The node is a present peer in every mesh it syncs, and no round brings anything new. */
  predicate Undisturbed(rs: seq<SyncRound>) {
    forall r :: r in rs ==> r.self == Some(Peer) && !r.arrived
  }

  lemma InitIn(rs: seq<SyncRound>)
    requires rs != []
    ensures rs[|rs| - 1] in rs && forall q :: q in rs[..|rs| - 1] ==> q in rs
  {}

  // ---- The turns of a real node, as values ----

  datatype Turn = Turn(mesh: nat, selfId: Key, visits: seq<Visit>, neighbour: Option<Visit>, now: nat)

  predicate SoundTurn(turn: Turn) {
    (forall v :: v in turn.visits ==> Sound(v)) && (turn.neighbour.Some? ==> Sound(turn.neighbour.value))
  }

  /** The settings of a node: InfectionCount, the pull interval, and the ids of its meshes. */
  datatype Settings = Settings(infectionCount: nat, pullInterval: nat, ids: seq<MeshId>)

  datatype Counters = Counters(count: nat, syncs: nat, lastSync: map<MeshId, nat>)

  datatype MeshState = MeshState(store: Store<MeshNode>, saved: nat)

  datatype NodeState = NodeState(counters: Counters, meshes: seq<MeshState>)

  datatype Taken = Taken(counters: Counters, mesh: MeshState, outcome: Outcome)

  function LastOf(lastSync: map<MeshId, nat>, id: MeshId): nat {
    if id in lastSync then lastSync[id] else 0
  }

  /** What one turn makes of the node's counters and of the mesh whose turn it is. */
  ghost function Take(infectionCount: nat, pullInterval: nat, id: MeshId, c: Counters, m: MeshState, turn: Turn): Taken
    requires 0 < infectionCount
  {
    var s := Prune(m.store);
    if !Silent(TypeOf(m.store, turn.selfId), Unsaved(m.store, m.saved), c.count) then
      var s' := AfterVisits(s, turn.visits, turn.now);
      var ok := AnySucceeds(s, turn.visits, turn.now);
      Taken(Counters(NextCount(infectionCount, c.count, ok), c.syncs + 1, c.lastSync[id := turn.now]),
            MeshState(s', StoreHash(s')), Pushed(ok))
    else if turn.neighbour.Some? && pullInterval != 0 && turn.now - LastOf(c.lastSync, id) > pullInterval then
      var s' := AfterVisit(s, turn.neighbour.value, turn.now);
      if Succeeds(s, turn.neighbour.value, turn.now)
      then Taken(Counters(c.count, c.syncs + 1, c.lastSync[id := turn.now]), MeshState(s', m.saved), Pulled(StoreHash(s') != m.saved))
      else Taken(c, MeshState(s', m.saved), PullFailed)
    else Taken(c, MeshState(s, m.saved), Idle)
  }

  ghost predicate Fits(cfg: Settings, n: NodeState, turns: seq<Turn>) {
    && 0 < cfg.infectionCount && |cfg.ids| == |n.meshes|
    && forall turn :: turn in turns ==> turn.mesh < |n.meshes|
  }

  ghost function TakenAt(cfg: Settings, n: NodeState, turn: Turn): Taken
    requires Fits(cfg, n, [turn])
  {
    assert turn in [turn];
    Take(cfg.infectionCount, cfg.pullInterval, cfg.ids[turn.mesh], n.counters, n.meshes[turn.mesh], turn)
  }

  ghost function TurnAfter(cfg: Settings, n: NodeState, turn: Turn): NodeState
    requires Fits(cfg, n, [turn])
  {
    assert turn in [turn];
    NodeState(TakenAt(cfg, n, turn).counters, n.meshes[turn.mesh := TakenAt(cfg, n, turn).mesh])
  }

  ghost function RoundOf(cfg: Settings, n: NodeState, turn: Turn): SyncRound
    requires Fits(cfg, n, [turn])
  {
    assert turn in [turn];
    var t := TakenAt(cfg, n, turn);
    SyncRound(turn.mesh, TypeOf(n.meshes[turn.mesh].store, turn.selfId), t.outcome == Pushed(true), Unsaved(t.mesh.store, t.mesh.saved))
  }

  ghost function TurnsAfter(cfg: Settings, n: NodeState, turns: seq<Turn>): (n': NodeState)
    requires Fits(cfg, n, turns)
    ensures |n'.meshes| == |n.meshes|
  {
    if turns == [] then n else
      FitsOn(cfg, n, turns);
      TurnAfter(cfg, TurnsAfter(cfg, n, turns[..|turns| - 1]), turns[|turns| - 1])
  }

  ghost function RoundsOf(cfg: Settings, n: NodeState, turns: seq<Turn>): seq<SyncRound>
    requires Fits(cfg, n, turns)
  {
    if turns == [] then [] else
      FitsOn(cfg, n, turns);
      RoundsOf(cfg, n, turns[..|turns| - 1]) + [RoundOf(cfg, TurnsAfter(cfg, n, turns[..|turns| - 1]), turns[|turns| - 1])]
  }

  lemma FitsOn(cfg: Settings, n: NodeState, turns: seq<Turn>)
    requires Fits(cfg, n, turns) && turns != []
    ensures Fits(cfg, n, turns[..|turns| - 1]) && turns[|turns| - 1] in turns
  {}

  /** What decides whether meshes open: the count, and the meshes with something unsaved. */
  ghost function Observed(n: NodeState): State {
    State(n.counters.count, set i: nat | i < |n.meshes| && Unsaved(n.meshes[i].store, n.meshes[i].saved))
  }

  /** One turn is one round of the run; it succeeds exactly when the mesh was not silent and some visit
      succeeded. */
  lemma TurnIsRound(cfg: Settings, n: NodeState, turn: Turn)
    requires Fits(cfg, n, [turn])
    ensures Observed(TurnAfter(cfg, n, turn)) == After(cfg.infectionCount, Observed(n), RoundOf(cfg, n, turn))
    ensures
      var r := RoundOf(cfg, n, turn);
      r.succeeded <==> Opens(Observed(n), r) && AnySucceeds(Prune(n.meshes[r.mesh].store), turn.visits, turn.now)
  {
    hide Unsaved, Prune, AfterVisits, AfterVisit, AnySucceeds, Succeeds, StoreHash, NextCount;
    assert turn in [turn];
    var s, t := Observed(n), TakenAt(cfg, n, turn);
    var n' := TurnAfter(cfg, n, turn);
    forall i: nat ensures i in Observed(n').changed <==> i in After(cfg.infectionCount, s, RoundOf(cfg, n, turn)).changed {}
  }

  /** So any number of turns is a run. */
  lemma {:induction false} TurnsAreRun(cfg: Settings, n: NodeState, turns: seq<Turn>)
    requires Fits(cfg, n, turns)
    ensures Observed(TurnsAfter(cfg, n, turns)) == Run(cfg.infectionCount, Observed(n), RoundsOf(cfg, n, turns))
  {
    if turns != [] {
      hide TurnAfter, RoundOf, Observed, After;
      FitsOn(cfg, n, turns);
      var init, turn := turns[..|turns| - 1], turns[|turns| - 1];
      TurnsAreRun(cfg, n, init);
      TurnIsRound(cfg, TurnsAfter(cfg, n, init), turn);
      var rs := RoundsOf(cfg, n, turns);
      assert rs[..|rs| - 1] == RoundsOf(cfg, n, init);
    }
  }

  // ---- The methods take those turns ----

  ghost function Reach(meshes: seq<Datastore>): set<object> {
    set i: nat, o: object | i < |meshes| && o in meshes[i].Repr() :: o
  }

  ghost predicate Unshared(syncer: SyncerImpl, meshes: seq<Datastore>) {
    && (forall i :: 0 <= i < |meshes| ==> syncer !in meshes[i].Repr())
    && (forall i, j :: 0 <= i < |meshes| && 0 <= j < |meshes| ==> meshes[i] !in meshes[j].store.Repr())
    && forall i, j :: 0 <= i < |meshes| && 0 <= j < |meshes| && i != j ==>
      meshes[i] != meshes[j] && meshes[i].store.Repr() !! meshes[j].store.Repr()
  }

  lemma ReachHas(meshes: seq<Datastore>)
    ensures forall i :: 0 <= i < |meshes| ==> {meshes[i]} + meshes[i].store.Repr() <= Reach(meshes)
  {
    forall i, o | 0 <= i < |meshes| && o in {meshes[i]} + meshes[i].store.Repr() ensures o in Reach(meshes) {
      assert i < |meshes| && o in meshes[i].Repr();
    }
  }

  ghost predicate AllValid(meshes: seq<Datastore>)
    reads Reach(meshes)
  {
    ReachHas(meshes);
    forall i :: 0 <= i < |meshes| ==> meshes[i].Valid()
  }

  ghost function StateOfMesh(mesh: Datastore): MeshState
    reads mesh, mesh.store.Repr()
  {
    MeshState(mesh.Value(), mesh.lastClock)
  }

  ghost function MeshAt(meshes: seq<Datastore>, i: nat): MeshState
    requires i < |meshes|
    reads Reach(meshes)
  {
    ReachHas(meshes);
    StateOfMesh(meshes[i])
  }

  ghost function CountersOf(syncer: SyncerImpl): Counters
    reads syncer
  {
    Counters(syncer.infectionCount, syncer.syncCount, syncer.lastSync)
  }

  ghost function NodeOf(syncer: SyncerImpl, meshes: seq<Datastore>): NodeState
    reads syncer, Reach(meshes)
  {
    NodeState(CountersOf(syncer), seq(|meshes|, i requires 0 <= i < |meshes| reads Reach(meshes) => MeshAt(meshes, i)))
  }

  ghost function SettingsOf(syncer: SyncerImpl, meshes: seq<Datastore>): Settings {
    Settings(syncer.infectionLimit, syncer.pullInterval, seq(|meshes|, i requires 0 <= i < |meshes| => meshes[i].meshId))
  }

  method TakeOne(syncer: SyncerImpl, mesh: Datastore, turn: Turn) returns (outcome: Outcome)
    requires syncer.Valid() && mesh.Valid() && syncer !in mesh.Repr() && SoundTurn(turn)
    modifies syncer, mesh, mesh.store.Repr()
    ensures syncer.Valid() && mesh.Valid()
    ensures Taken(CountersOf(syncer), StateOfMesh(mesh), outcome)
         == Take(syncer.infectionLimit, syncer.pullInterval, mesh.meshId, old(CountersOf(syncer)), old(StateOfMesh(mesh)), turn)
  {
    hide StoreHash, Replica.Prune, AfterVisits, AnySucceeds, AfterVisit, Succeeds, Sound, NextCount, Unsaved;
    outcome := syncer.Sync(mesh, turn.selfId, turn.visits, turn.neighbour, turn.now);
  }

  method TakeTurn(syncer: SyncerImpl, meshes: seq<Datastore>, turn: Turn) returns (outcome: Outcome)
    requires syncer.Valid() && Unshared(syncer, meshes) && AllValid(meshes) && turn.mesh < |meshes| && SoundTurn(turn)
    modifies syncer, Reach(meshes)
    ensures syncer.Valid() && AllValid(meshes)
    ensures Fits(SettingsOf(syncer, meshes), old(NodeOf(syncer, meshes)), [turn])
    ensures NodeOf(syncer, meshes) == TurnAfter(SettingsOf(syncer, meshes), old(NodeOf(syncer, meshes)), turn)
    ensures outcome == TakenAt(SettingsOf(syncer, meshes), old(NodeOf(syncer, meshes)), turn).outcome
  {
    ReachHas(meshes);
    hide Reach, StateOfMesh, SoundTurn, Take;
    var mesh := meshes[turn.mesh];
    ghost var n := NodeOf(syncer, meshes);
    outcome := TakeOne(syncer, mesh, turn);
    forall i: nat | i < |meshes| && i != turn.mesh
      ensures meshes[i].Valid() && StateOfMesh(meshes[i]) == n.meshes[i]
    {
      assert meshes[i] != mesh && meshes[i] !in mesh.store.Repr() && meshes[i] != syncer as object;
      assert syncer !in meshes[i].store.Repr() && mesh !in meshes[i].store.Repr();
      assert meshes[i].store.Repr() !! mesh.store.Repr();
    }
    assert NodeOf(syncer, meshes).meshes == n.meshes[turn.mesh := StateOfMesh(mesh)];
  }

  /** Any number of turns, one after another: the node they leave, and its successful pushes, which are those of
      the run of its rounds. */
  method SyncMeshes(syncer: SyncerImpl, meshes: seq<Datastore>, turns: seq<Turn>) returns (pushes: nat)
    requires syncer.Valid() && Unshared(syncer, meshes) && AllValid(meshes)
    requires forall turn :: turn in turns ==> turn.mesh < |meshes| && SoundTurn(turn)
    modifies syncer, Reach(meshes)
    ensures syncer.Valid() && AllValid(meshes)
    ensures Fits(SettingsOf(syncer, meshes), old(NodeOf(syncer, meshes)), turns)
    ensures
      var cfg, n := SettingsOf(syncer, meshes), old(NodeOf(syncer, meshes));
      && NodeOf(syncer, meshes) == TurnsAfter(cfg, n, turns)
      && Observed(NodeOf(syncer, meshes)) == Run(cfg.infectionCount, Observed(n), RoundsOf(cfg, n, turns))
      && pushes == TotalPushes(cfg.infectionCount, Observed(n), RoundsOf(cfg, n, turns))
  {
    hide AllValid, SoundTurn, Unshared, Reach, TurnAfter, TakenAt, Take, MeshAt, Observed, After;
    ghost var cfg, n := SettingsOf(syncer, meshes), NodeOf(syncer, meshes);
    assert Fits(cfg, n, turns);
    pushes := 0;
    assert turns[..0] == [];
    for i := 0 to |turns|
      invariant syncer.Valid() && AllValid(meshes) && Fits(cfg, n, turns[..i])
      invariant NodeOf(syncer, meshes) == TurnsAfter(cfg, n, turns[..i])
      invariant pushes == TotalPushes(cfg.infectionCount, Observed(n), RoundsOf(cfg, n, turns[..i]))
    {
      var turn := turns[i];
      assert turn in turns;
      var outcome := TakeTurn(syncer, meshes, turn);
      OneMoreTurn(cfg, n, turns, i);
      if outcome == Pushed(true) {
        pushes := pushes + 1;
      }
    }
    assert turns[..|turns|] == turns;
    TurnsAreRun(cfg, n, turns);
  }

  lemma OneMoreTurn(cfg: Settings, n: NodeState, turns: seq<Turn>, i: nat)
    requires i < |turns| && Fits(cfg, n, turns[..i]) && Fits(cfg, n, turns)
    ensures Fits(cfg, n, turns[..i + 1]) && Fits(cfg, TurnsAfter(cfg, n, turns[..i]), [turns[i]])
    ensures
      var before := TurnsAfter(cfg, n, turns[..i]);
      && TurnsAfter(cfg, n, turns[..i + 1]) == TurnAfter(cfg, before, turns[i])
      && TotalPushes(cfg.infectionCount, Observed(n), RoundsOf(cfg, n, turns[..i + 1]))
         == TotalPushes(cfg.infectionCount, Observed(n), RoundsOf(cfg, n, turns[..i]))
            + if TakenAt(cfg, before, turns[i]).outcome == Pushed(true) then 1 else 0
  {
    hide Take, Observed, After;
    assert turns[..i + 1][..i] == turns[..i] && turns[i] in turns;
    var before, rs := TurnsAfter(cfg, n, turns[..i]), RoundsOf(cfg, n, turns[..i]);
    TurnsAreRun(cfg, n, turns[..i]);
    TurnIsRound(cfg, before, turns[i]);
    var r := RoundOf(cfg, before, turns[i]);
    assert RoundsOf(cfg, n, turns[..i + 1]) == rs + [r];
    assert (rs + [r])[..|rs|] == rs;
  }

  // ---- How often a change is pushed ----

  lemma {:induction false} CountStaysBounded(infectionCount: nat, s: State, rs: seq<SyncRound>)
    requires 0 < infectionCount && s.count <= infectionCount
    ensures Run(infectionCount, s, rs).count <= infectionCount
  {
    if rs != [] {
      InitIn(rs);
      CountStaysBounded(infectionCount, s, rs[..|rs| - 1]);
      var t, r := Run(infectionCount, s, rs[..|rs| - 1]), rs[|rs| - 1];
      if Opens(t, r) {
        RoundTakes(infectionCount, t.count, true, r.succeeded);
      }
    }
  }

  /** A node that is no peer of the mesh, or no longer in it, never falls silent: it pushes in every round that
      succeeds. */
  lemma {:induction false} OthersAlwaysPush(infectionCount: nat, s: State, rs: seq<SyncRound>, m: MeshIndex)
    requires 0 < infectionCount && forall r :: r in rs ==> r.mesh == m && (r.self == None || r.self == Some(Client))
    ensures Pushes(infectionCount, s, rs, m) == Successes(rs)
  {
    if rs != [] {
      InitIn(rs);
      OthersAlwaysPush(infectionCount, s, rs[..|rs| - 1], m);
    }
  }

  /** One mesh on its own: it is pushed in as many successful rounds as were due at the start, and falls
      silent exactly when that many have succeeded, however many failures lie between. A change that
      arrives at count 0 is due InfectionCount times; one that arrives later, only as often as the count says. */
  lemma {:induction false} PushedAsOftenAsDue(infectionCount: nat, s: State, rs: seq<SyncRound>, m: MeshIndex)
    requires 0 < infectionCount && s.count <= infectionCount && Undisturbed(rs) && forall r :: r in rs ==> r.mesh == m
    ensures
      var due := Due(infectionCount, s.count, m in s.changed);
      var end := Run(infectionCount, s, rs);
      && Pushes(infectionCount, s, rs, m) == Min(due, Successes(rs))
      && Due(infectionCount, end.count, m in end.changed) == due - Min(due, Successes(rs))
      && (Silent(Some(Peer), m in end.changed, end.count) <==> due <= Successes(rs))
  {
    if rs != [] {
      InitIn(rs);
      var init, r := rs[..|rs| - 1], rs[|rs| - 1];
      PushedAsOftenAsDue(infectionCount, s, init, m);
      CountStaysBounded(infectionCount, s, init);
      var t := Run(infectionCount, s, init);
      if Opens(t, r) {
        RoundTakes(infectionCount, t.count, m in t.changed, r.succeeded);
      }
    }
  }

  predicate AllSilent(s: State) {
    s.count == 0 && s.changed == {}
  }

  /** Over all meshes: one change at count 0 causes InfectionCount pushes in all, whichever meshes make
      them, and then every mesh is silent. */
  lemma {:induction false} SharedAmongMeshes(infectionCount: nat, s: State, rs: seq<SyncRound>, m: MeshIndex)
    requires 0 < infectionCount && s == State(0, {m}) && Undisturbed(rs)
    ensures
      var end, total := Run(infectionCount, s, rs), TotalPushes(infectionCount, s, rs);
      && total <= infectionCount
      && ((end == s && total == 0 && (forall r :: r in rs ==> r.mesh != m)) || end == State(infectionCount - total, {}))
      && (AllSilent(end) <==> total == infectionCount)
  {
    if rs != [] {
      InitIn(rs);
      var init, r := rs[..|rs| - 1], rs[|rs| - 1];
      assert rs == init + [r];
      SharedAmongMeshes(infectionCount, s, init, m);
      var t := Run(infectionCount, s, init);
      if Opens(t, r) {
        RoundTakes(infectionCount, t.count, r.mesh in t.changed, r.succeeded);
        assert t.changed - {r.mesh} == {};
      }
    }
  }

  lemma {:induction false} PushesAddUp(infectionCount: nat, s: State, rs: seq<SyncRound>, m: MeshIndex)
    requires 0 < infectionCount
    ensures Pushes(infectionCount, s, rs, m) + OtherPushes(infectionCount, s, rs, m) == TotalPushes(infectionCount, s, rs)
  {
    if rs != [] {
      PushesAddUp(infectionCount, s, rs[..|rs| - 1], m);
    }
  }

  /** In every schedule that ends with all meshes silent, the changed mesh gets its InfectionCount pushes
      exactly when no other mesh pushed. */
  lemma PushedInFullIff(infectionCount: nat, rs: seq<SyncRound>, m: MeshIndex)
    requires 0 < infectionCount && Undisturbed(rs) && AllSilent(Run(infectionCount, State(0, {m}), rs))
    ensures Pushes(infectionCount, State(0, {m}), rs, m) == infectionCount
      <==> OtherPushes(infectionCount, State(0, {m}), rs, m) == 0
  {
    SharedAmongMeshes(infectionCount, State(0, {m}), rs, m);
    PushesAddUp(infectionCount, State(0, {m}), rs, m);
  }

  function Repeat(r: SyncRound, n: nat): seq<SyncRound> {
    seq(n, i => r)
  }

  lemma {:induction false} RepeatSucceeds(m: MeshIndex, n: nat)
    ensures Successes(Repeat(SyncRound(m, Some(Peer), true, false), n)) == n
  {
    if 0 < n {
      assert Repeat(SyncRound(m, Some(Peer), true, false), n)[..n - 1] == Repeat(SyncRound(m, Some(Peer), true, false), n - 1);
      RepeatSucceeds(m, n - 1);
    }
  }

  lemma {:induction false} RunConcat(infectionCount: nat, s: State, a: seq<SyncRound>, b: seq<SyncRound>, m: MeshIndex)
    requires 0 < infectionCount
    ensures Run(infectionCount, s, a + b) == Run(infectionCount, Run(infectionCount, s, a), b)
    ensures Pushes(infectionCount, s, a + b, m)
         == Pushes(infectionCount, s, a, m) + Pushes(infectionCount, Run(infectionCount, s, a), b, m)
  {
    if b == [] {
      assert a + b == a;
    } else {
      assert (a + b)[..|a + b| - 1] == a + b[..|b| - 1];
      RunConcat(infectionCount, s, a, b[..|b| - 1], m);
    }
  }

  lemma {:induction false} OthersDoNotPush(infectionCount: nat, s: State, rs: seq<SyncRound>, m: MeshIndex)
    requires 0 < infectionCount && forall r :: r in rs ==> r.mesh != m
    ensures Pushes(infectionCount, s, rs, m) == 0
  {
    if rs != [] {
      InitIn(rs);
      OthersDoNotPush(infectionCount, s, rs[..|rs| - 1], m);
    }
  }

  lemma {:induction false} NoOthers(infectionCount: nat, s: State, rs: seq<SyncRound>, m: MeshIndex)
    requires 0 < infectionCount && forall r :: r in rs ==> r.mesh == m
    ensures OtherPushes(infectionCount, s, rs, m) == 0
  {
    if rs != [] {
      InitIn(rs);
      NoOthers(infectionCount, s, rs[..|rs| - 1], m);
    }
  }

  /** The schedule in which m's first round fails, and another mesh, which has nothing new, uses up the count. */
  function Unlucky(infectionCount: nat, m: MeshIndex, o: MeshIndex): seq<SyncRound>
    requires 0 < infectionCount
  {
    [SyncRound(m, Some(Peer), false, false)] + Repeat(SyncRound(o, Some(Peer), true, false), infectionCount)
  }

  /** Then all meshes are silent, and the change has not been pushed once. */
  lemma OtherMeshUsesUpTheCount(infectionCount: nat, m: MeshIndex, o: MeshIndex)
    requires 0 < infectionCount && m != o
    ensures
      var s, rs := State(0, {m}), Unlucky(infectionCount, m, o);
      Pushes(infectionCount, s, rs, m) == 0 && AllSilent(Run(infectionCount, s, rs))
  {
    var s, first, rest := State(0, {m}), [SyncRound(m, Some(Peer), false, false)], Repeat(SyncRound(o, Some(Peer), true, false), infectionCount);
    RunConcat(infectionCount, s, first, rest, m);
    assert first[..0] == [];
    RoundTakes(infectionCount, 0, true, false);
    var t := Run(infectionCount, s, first);
    assert t == State(infectionCount, {}) by { assert s.changed - {m} == {}; }
    OthersDoNotPush(infectionCount, t, rest, m);
    PushedAsOftenAsDue(infectionCount, t, rest, o);
    RepeatSucceeds(o, infectionCount);
    SharedAmongMeshes(infectionCount, s, first + rest, m);
  }

  /** A schedule of the node's meshes that runs until all are silent. */
  predicate RunsOut(infectionCount: nat, meshes: set<MeshIndex>, m: MeshIndex, rs: seq<SyncRound>)
    requires 0 < infectionCount
  {
    && Undisturbed(rs) && (forall r :: r in rs ==> r.mesh in meshes)
    && AllSilent(Run(infectionCount, State(0, {m}), rs))
  }

  /** So every schedule pushes a changed mesh InfectionCount times exactly when the node has no other mesh. */
  lemma PromiseHoldsIff(infectionCount: nat, meshes: set<MeshIndex>, m: MeshIndex)
    requires 0 < infectionCount && m in meshes
    ensures
      (forall rs :: RunsOut(infectionCount, meshes, m, rs) ==> Pushes(infectionCount, State(0, {m}), rs, m) == infectionCount)
      <==> meshes == {m}
  {
    if meshes == {m} {
      forall rs | RunsOut(infectionCount, meshes, m, rs) ensures Pushes(infectionCount, State(0, {m}), rs, m) == infectionCount {
        NoOthers(infectionCount, State(0, {m}), rs, m);
        PushedInFullIff(infectionCount, rs, m);
      }
    } else {
      var o :| o in meshes && o != m;
      OtherMeshUsesUpTheCount(infectionCount, m, o);
      assert RunsOut(infectionCount, meshes, m, Unlucky(infectionCount, m, o));
    }
  }
}
