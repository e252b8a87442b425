/** pkg/crdt/two_phase_map_syncer.go, driven by the client loop of pkg/sync/syncrequester.go and the
    server loop of pkg/sync/syncservice.go. */
module Syncers {
  import opened NatMaps
  import opened Replica
  import opened TwoPhaseMaps
  import TPM = TwoPhaseMaps

  datatype SyncState = HASH | PREPARE | PRESENT | EXCHANGE | MERGE | FINISHED

  /** A message as the value it encodes; `NoMessage` is Go's nil slice. */
  datatype Message<D> = NoMessage | HashMsg(hash: nat) | StateMsg(state: MapState) | SnapshotMsg(snap: Snapshot<D>)

  // Decoding bytes of another type fails and leaves Go's zero value.

  function AsHash<D>(m: Message<D>): nat {
    if m.HashMsg? then m.hash else 0
  }

  function AsState<D>(m: Message<D>): MapState {
    if m.StateMsg? then m.state else MapState(map[], map[], map[])
  }

  function AsSnapshot<D>(m: Message<D>): Snapshot<D> {
    if m.SnapshotMsg? then m.snap else Snapshot(map[], map[])
  }

  /** One side of a session: its state machine, and the store it works on. */
  datatype Side<D> = Side(state: SyncState, mapState: Option<MapState>, peerMsg: Message<D>, store: Store<D>)

  datatype Output<D> = Output(side: Side<D>, msg: Message<D>, more: bool)

  function Next(s: SyncState): SyncState {
    match s
    case HASH => PREPARE
    case PREPARE => PRESENT
    case PRESENT => EXCHANGE
    case EXCHANGE => MERGE
    case MERGE => FINISHED
    case FINISHED => FINISHED
  }

  /** The calls on which GenerateMessage does not panic. */
  predicate CanGenerate<D>(s: Side<D>) {
    && s.state != FINISHED
    && (s.state in {PRESENT, EXCHANGE, MERGE} ==> s.peerMsg != NoMessage)
    && (s.state == PRESENT ==> s.mapState.Some?)
  }

  ghost function Generate<D>(s: Side<D>, now: nat): Output<D>
    requires CanGenerate(s)
  {
    match s.state
    case HASH =>
      Output(s.(state := PREPARE), HashMsg(ClockHash(s.store.clock)), true)
    case PREPARE =>
      if AsHash(s.peerMsg) == ClockHash(s.store.clock) then Output(s, NoMessage, false) else
        var ticked := s.store.(clock := Tick(s.store.clock, now));
        Output(s.(state := PRESENT, mapState := Some(StateOf(ticked)), store := ticked),
               StateMsg(StateOf(ticked)), true)
    case PRESENT =>
      var theirs := AsState(s.peerMsg);
      var wanted := Replica.Difference(s.mapState.value, s.store.clock.highestStale, theirs);
      var merged := s.store.(clock := ClockMerge(s.store.clock, theirs.vectors, now));
      Output(s.(state := EXCHANGE, store := merged), StateMsg(wanted), true)
    case EXCHANGE =>
      var wanted := AsState(s.peerMsg);
      Output(s.(state := MERGE), SnapshotMsg(SnapshotFor(s.store, wanted.add.Keys, wanted.rem.Keys)), true)
    case MERGE =>
      Output(s.(store := Replica.Merge(s.store, AsSnapshot(s.peerMsg), now)), NoMessage, false)
  }

  /** Receiving an empty message keeps the last one. */
  function Receive<D>(s: Side<D>, msg: Message<D>): Side<D> {
    if msg == NoMessage then s else s.(peerMsg := msg)
  }

  class TwoPhaseSyncer<D> {
    const store: TwoPhaseMap<D>
    var state: SyncState
    var mapState: Option<MapState>
    var peerMsg: Message<D>

    ghost function Repr(): set<object> {
      {this} + store.Repr()
    }

    ghost predicate Valid() {
      store.Valid()
    }

    ghost function Value(): Side<D>
      reads Repr()
    {
      Side(state, mapState, peerMsg, store.Value())
    }

    constructor (store: TwoPhaseMap<D>)
      requires store.Valid()
      ensures Valid() && this.store == store && fresh(this)
      ensures Value() == Side(HASH, None, NoMessage, old(store.Value()))
    {
      this.store := store;
      state := HASH;
      mapState := None;
      peerMsg := NoMessage;
    }

    method IncrementState()
      modifies this`state
      ensures state == Next(old(state))
    {
      state := Next(state);
    }

    method Hash() returns (msg: Message<D>, more: bool)
      requires Valid() && state == HASH
      modifies Repr()
      ensures Output(Value(), msg, more) == Generate(old(Value()), 0)
    {
      var h := store.clock.GetHash();
      IncrementState();
      return HashMsg(h), true;
    }

    method Prepare(now: nat) returns (msg: Message<D>, more: bool)
      requires Valid() && state == PREPARE
      modifies Repr()
      ensures Output(Value(), msg, more) == Generate(old(Value()), now)
    {
      var h := store.clock.GetHash();
      if AsHash(peerMsg) == h {
        return NoMessage, false;
      }
      var _ := store.clock.IncrementClock(now);
      var s := store.GenerateMessage();
      mapState := Some(s);
      IncrementState();
      return StateMsg(s), true;
    }

    method Present(now: nat) returns (msg: Message<D>, more: bool)
      requires Valid() && state == PRESENT && CanGenerate(Value())
      modifies Repr()
      ensures Output(Value(), msg, more) == Generate(old(Value()), now)
    {
      var theirs := AsState(peerMsg);
      var stale := store.clock.GetStaleCount();
      var wanted := TPM.Difference(mapState.value, stale, theirs);
      store.clock.Merge(theirs.vectors, now);
      IncrementState();
      return StateMsg(wanted), true;
    }

    method Exchange() returns (msg: Message<D>, more: bool)
      requires Valid() && state == EXCHANGE && CanGenerate(Value())
      modifies Repr()
      ensures Output(Value(), msg, more) == Generate(old(Value()), 0)
    {
      var snap := store.SnapShotFromState(AsState(peerMsg));
      IncrementState();
      return SnapshotMsg(snap), true;
    }

    method Merge(now: nat) returns (msg: Message<D>, more: bool)
      requires Valid() && state == MERGE && CanGenerate(Value())
      modifies Repr()
      ensures Output(Value(), msg, more) == Generate(old(Value()), now)
    {
      store.Merge(AsSnapshot(peerMsg), now);
      return NoMessage, false;
    }

    /** Whether GenerateMessage would not panic. */
    predicate CanAnswer()
      reads this
      ensures CanAnswer() <==> CanGenerate(Side(state, mapState, peerMsg, store.Value()))
    {
      && state != FINISHED
      && (state in {PRESENT, EXCHANGE, MERGE} ==> !peerMsg.NoMessage?)
      && (state == PRESENT ==> mapState.Some?)
    }

    /** The precondition is the absence of the three panics. */
    method GenerateMessage(now: nat) returns (msg: Message<D>, more: bool)
      requires Valid() && CanGenerate(Value())
      modifies Repr()
      ensures Output(Value(), msg, more) == Generate(old(Value()), now)
    {
      match state
      case HASH => msg, more := Hash();
      case PREPARE => msg, more := Prepare(now);
      case PRESENT => msg, more := Present(now);
      case EXCHANGE => msg, more := Exchange();
      case MERGE => msg, more := Merge(now);
    }

    method RecvMessage(msg: Message<D>)
      modifies this`peerMsg
      ensures peerMsg == msg
    {
      peerMsg := msg;
    }
  }

  // ---- Each loop on its own, against whatever the other end sends ----

  datatype Finish = Completed | Broken | Panicked

  datatype Ended<D> = Ended(side: Side<D>, finish: Finish)

  /** What the client's loop leaves when its stream delivers these replies and then breaks. */
  ghost function ClientLoop<D>(side: Side<D>, replies: seq<Message<D>>, now: nat): Ended<D>
    decreases |replies|
  {
    if !CanGenerate(side) then Ended(side, Panicked) else
      var out := Generate(side, now);
      if replies == [] then Ended(out.side, Broken)
      else if !out.more then Ended(Receive(out.side, replies[0]), Completed)
      else ClientLoop(Receive(out.side, replies[0]), replies[1..], now)
  }

  datatype Envelope<D> = Envelope(mesh: string, msg: Message<D>)

  /** The server answers each request before it takes in its message. The loop ends early on a request for another
      mesh, and when the answer to the last request cannot be sent. */
  ghost function ServerLoop<D>(side: Side<D>, mesh: string, requests: seq<Envelope<D>>, unsent: bool, now: nat): Ended<D>
    decreases |requests|
  {
    if requests == [] || requests[0].mesh != mesh then Ended(side, Broken)
    else if !CanGenerate(side) then Ended(side, Panicked) else
      var out := Generate(side, now);
      if unsent && |requests| == 1 then Ended(out.side, Broken)
      else if !out.more then Ended(Receive(out.side, requests[0].msg), Completed)
      else ServerLoop(Receive(out.side, requests[0].msg), mesh, requests[1..], unsent, now)
  }

  ghost function Fresh<D>(s: Store<D>): Side<D> {
    Side(HASH, None, NoMessage, s)
  }

  /** The client's loop, on any replies. */
  method ClientSync<D>(client: TwoPhaseSyncer<D>, replies: seq<Message<D>>, now: nat) returns (finish: Finish)
    requires client.Valid()
    modifies client.Repr()
    ensures Ended(client.Value(), finish) == ClientLoop(old(client.Value()), replies, now)
  {
    ghost var start := client.Value();
    var i := 0;
    assert replies[0..] == replies;
    while true
      invariant 0 <= i <= |replies|
      invariant ClientLoop(client.Value(), replies[i..], now) == ClientLoop(start, replies, now)
      decreases |replies| - i
    {
      hide Generate;
      if !client.CanAnswer() {
        return Panicked;
      }
      var msg, more := client.GenerateMessage(now);
      if i == |replies| {
        return Broken;
      }
      if replies[i] != NoMessage {
        client.RecvMessage(replies[i]);
      }
      if !more {
        return Completed;
      }
      assert replies[i..][1..] == replies[i + 1..];
      i := i + 1;
    }
  }

  /** The server's loop, on any requests. */
  method ServerSync<D>(server: TwoPhaseSyncer<D>, mesh: string, requests: seq<Envelope<D>>, unsent: bool, now: nat) returns (finish: Finish)
    requires server.Valid()
    modifies server.Repr()
    ensures Ended(server.Value(), finish) == ServerLoop(old(server.Value()), mesh, requests, unsent, now)
  {
    ghost var start := server.Value();
    assert requests[0..] == requests;
    for i := 0 to |requests|
      invariant ServerLoop(server.Value(), mesh, requests[i..], unsent, now) == ServerLoop(start, mesh, requests, unsent, now)
    {
      hide Generate;
      if requests[i].mesh != mesh {
        return Broken;
      }
      if !server.CanAnswer() {
        return Panicked;
      }
      var msg, more := server.GenerateMessage(now);
      if unsent && i == |requests| - 1 {
        return Broken;
      }
      if requests[i].msg != NoMessage {
        server.RecvMessage(requests[i].msg);
      }
      if !more {
        return Completed;
      }
      assert requests[i..][1..] == requests[i + 1..];
    }
    return Broken;
  }

  /** A side past its first round that has received something. */
  predicate Safe<D>(side: Side<D>) {
    CanGenerate(side) && side.state != HASH && side.peerMsg != NoMessage
  }

  lemma SafeOn<D>(side: Side<D>, msg: Message<D>, now: nat)
    requires Safe(side) && Generate(side, now).more
    ensures Safe(Receive(Generate(side, now).side, msg))
  {
    hide ClockHash, Tick, ClockMerge, StateOf, Replica.Difference, SnapshotFor;
  }

  lemma {:induction false} SafeClient<D>(side: Side<D>, replies: seq<Message<D>>, now: nat)
    requires Safe(side)
    ensures ClientLoop(side, replies, now).finish != Panicked
    decreases |replies|
  {
    hide Generate;
    if replies != [] && Generate(side, now).more {
      SafeOn(side, replies[0], now);
      SafeClient(Receive(Generate(side, now).side, replies[0]), replies[1..], now);
    }
  }

  lemma {:induction false} SafeServer<D>(side: Side<D>, mesh: string, requests: seq<Envelope<D>>, unsent: bool, now: nat)
    requires Safe(side)
    ensures ServerLoop(side, mesh, requests, unsent, now).finish != Panicked
    decreases |requests|
  {
    hide Generate;
    if requests != [] && requests[0].mesh == mesh && Generate(side, now).more && !(unsent && |requests| == 1) {
      SafeOn(side, requests[0].msg, now);
      SafeServer(Receive(Generate(side, now).side, requests[0].msg), mesh, requests[1..], unsent, now);
    }
  }

  /** The first two rounds of a side that is sent nothing. */
  lemma Unanswered<D>(s: Store<D>, msg: Message<D>, now: nat)
    ensures
      var out := Generate(Fresh(s), now);
      out.more && out.side == Fresh(s).(state := PREPARE)
      && (msg != NoMessage ==> Safe(Receive(out.side, msg)))
    ensures
      var out := Generate(Fresh(s).(state := PREPARE), now);
      && (out.more <==> ClockHash(s.clock) != 0)
      && (out.more ==> !CanGenerate(out.side) && (msg != NoMessage ==> Safe(Receive(out.side, msg))))
  {
    hide ClockHash, Tick, ClockMerge, StateOf;
  }

  /** Exactly when a peer can make the client panic: it leaves the first two messages empty, and the client's
      clock hash is not the zero that an empty message reads as. */
  lemma ClientPanicsIff<D>(s: Store<D>, replies: seq<Message<D>>, now: nat)
    ensures ClientLoop(Fresh(s), replies, now).finish == Panicked <==>
      2 <= |replies| && replies[0] == NoMessage && replies[1] == NoMessage && ClockHash(s.clock) != 0
  {
    hide Generate, Safe, ClockHash;
    if replies != [] {
      Unanswered(s, replies[0], now);
      var side := Receive(Generate(Fresh(s), now).side, replies[0]);
      if replies[0] != NoMessage {
        SafeClient(side, replies[1..], now);
      } else if ClockHash(s.clock) != 0 && 2 <= |replies| {
        Unanswered(s, replies[1], now);
        var next := Receive(Generate(side, now).side, replies[1]);
        assert replies[1..][1..] == replies[2..] && replies[1..][0] == replies[1];
        assert ClientLoop(side, replies[1..], now) == ClientLoop(next, replies[2..], now);
        if replies[1] != NoMessage {
          SafeClient(next, replies[2..], now);
        }
      }
    }
  }

  /** And the server: the same, once a third request for the same mesh makes it answer. */
  lemma ServerPanicsIff<D>(s: Store<D>, mesh: string, requests: seq<Envelope<D>>, unsent: bool, now: nat)
    ensures ServerLoop(Fresh(s), mesh, requests, unsent, now).finish == Panicked <==>
      && 3 <= |requests| && (forall i :: 0 <= i < 3 ==> requests[i].mesh == mesh)
      && requests[0].msg == NoMessage && requests[1].msg == NoMessage && ClockHash(s.clock) != 0
  {
    hide Generate, Safe, ClockHash;
    if requests != [] && requests[0].mesh == mesh && !(unsent && |requests| == 1) {
      Unanswered(s, requests[0].msg, now);
      var side := Receive(Generate(Fresh(s), now).side, requests[0].msg);
      var rest := requests[1..];
      assert ServerLoop(Fresh(s), mesh, requests, unsent, now) == ServerLoop(side, mesh, rest, unsent, now);
      if requests[0].msg != NoMessage {
        SafeServer(side, mesh, rest, unsent, now);
      } else if ClockHash(s.clock) != 0 && rest != [] && rest[0].mesh == mesh && !(unsent && |rest| == 1) {
        Unanswered(s, rest[0].msg, now);
        var next := Receive(Generate(side, now).side, rest[0].msg);
        assert ServerLoop(side, mesh, rest, unsent, now) == ServerLoop(next, mesh, rest[1..], unsent, now);
        if rest[0].msg != NoMessage {
          SafeServer(next, mesh, rest[1..], unsent, now);
        } else {
          assert !CanGenerate(next);
        }
      }
    }
  }

  // ---- Both loops in lock step ----

  /** Both ends of one stream: the client, the server, and whether each has left its loop. */
  datatype Link<D> = Link(client: Side<D>, server: Side<D>, clientDone: bool, serverDone: bool)

  ghost predicate CanRound<D>(l: Link<D>) {
    !l.clientDone && !l.serverDone && CanGenerate(l.client) && CanGenerate(l.server)
  }

  /** One round: each end answers what it received in the round before, then the answers cross.
      A link that cannot take a round, because an end has left or would panic, stays as it is. */
  ghost function Round<D>(l: Link<D>, t: nat, u: nat): Link<D> {
    if !CanRound(l) then l else
      var c := Generate(l.client, t);
      var s := Generate(l.server, u);
      Link(Receive(c.side, s.msg), Receive(s.side, c.msg), !c.more, !s.more)
  }

  ghost function Rounds<D>(l: Link<D>, n: nat, t: nat, u: nat): Link<D> {
    if n == 0 then l else Round(Rounds(l, n - 1, t, u), t, u)
  }

  ghost function Start<D>(a: Store<D>, b: Store<D>): Link<D> {
    Link(Side(HASH, None, NoMessage, a), Side(HASH, None, NoMessage, b), false, false)
  }

  // The store of one end at the stages of a session with `peer`, written without the state machine.

  ghost function Ticked<D>(s: Store<D>, now: nat): Store<D> {
    s.(clock := Tick(s.clock, now))
  }

  ghost function Joined<D>(s: Store<D>, peer: Store<D>, now: nat, peerNow: nat): Store<D> {
    var ticked := Ticked(s, now);
    ticked.(clock := ClockMerge(ticked.clock, Clocks(Ticked(peer, peerNow).clock.vectors), now))
  }

  ghost function Wanted<D>(s: Store<D>, peer: Store<D>, now: nat, peerNow: nat): MapState {
    Replica.Difference(StateOf(Ticked(s, now)), s.clock.highestStale, StateOf(Ticked(peer, peerNow)))
  }

  ghost function Answer<D>(s: Store<D>, peer: Store<D>, now: nat, peerNow: nat): Snapshot<D> {
    var wanted := Wanted(s, peer, now, peerNow);
    SnapshotFor(Joined(peer, s, peerNow, now), wanted.add.Keys, wanted.rem.Keys)
  }

  ghost predicate ExitsEarly<D>(a: Store<D>, b: Store<D>) {
    ClockHash(a.clock) == ClockHash(b.clock)
  }

  /** The store one end is left with after a whole session with `peer`. */
  ghost function Synced<D>(s: Store<D>, peer: Store<D>, now: nat, peerNow: nat): Store<D> {
    if ExitsEarly(s, peer) then s else
      Replica.Merge(Joined(s, peer, now, peerNow), Answer(s, peer, now, peerNow), now)
  }

  /** How many rounds a session takes: 2 when the clock hashes agree, else 5. */
  ghost function Length<D>(a: Store<D>, b: Store<D>): nat {
    if ExitsEarly(a, b) then 2 else 5
  }

  /** One end after n rounds. */
  ghost function SideAfter<D>(n: nat, s: Store<D>, peer: Store<D>, now: nat, peerNow: nat): Side<D>
    requires n <= Length(s, peer)
  {
    var state := Some(StateOf(Ticked(s, now)));
    if n == 0 then Side(HASH, None, NoMessage, s)
    else if n == 1 || ExitsEarly(s, peer) then Side(PREPARE, None, HashMsg(ClockHash(peer.clock)), s)
    else if n == 2 then Side(PRESENT, state, StateMsg(StateOf(Ticked(peer, peerNow))), Ticked(s, now))
    else if n == 3 then Side(EXCHANGE, state, StateMsg(Wanted(peer, s, peerNow, now)), Joined(s, peer, now, peerNow))
    else Side(MERGE, state, SnapshotMsg(Answer(s, peer, now, peerNow)),
              if n == 4 then Joined(s, peer, now, peerNow) else Synced(s, peer, now, peerNow))
  }

  lemma SideStep<D>(n: nat, s: Store<D>, peer: Store<D>, now: nat, peerNow: nat)
    requires n < Length(s, peer)
    ensures CanGenerate(SideAfter(n, s, peer, now, peerNow))
    ensures CanGenerate(SideAfter(n, peer, s, peerNow, now))
    ensures
      var mine := Generate(SideAfter(n, s, peer, now, peerNow), now);
      var theirs := Generate(SideAfter(n, peer, s, peerNow, now), peerNow);
      && Receive(mine.side, theirs.msg) == SideAfter(n + 1, s, peer, now, peerNow)
      && (mine.more <==> n + 1 < Length(s, peer))
  {
    hide ClockHash, MaxClock, ClockMerge, DiffMap, Replica.Merge, SnapshotFor;
  }

  /** The two loops stay in lock step: after n rounds both ends are in the same state with neither or both
      done, and before the last round both can answer. So no call panics, and a session takes
      exactly 2 or 5 rounds. */
  lemma {:induction false} LockStep<D>(a: Store<D>, b: Store<D>, n: nat, t: nat, u: nat)
    requires n <= Length(a, b)
    ensures
      var done := n == Length(a, b);
      Rounds(Start(a, b), n, t, u)
        == Link(SideAfter(n, a, b, t, u), SideAfter(n, b, a, u, t), done, done)
    ensures SideAfter(n, a, b, t, u).state == SideAfter(n, b, a, u, t).state != FINISHED
    ensures CanRound(Rounds(Start(a, b), n, t, u)) <==> n < Length(a, b)
  {
    if n > 0 {
      LockStep(a, b, n - 1, t, u);
      SideStep(n - 1, a, b, t, u);
      SideStep(n - 1, b, a, u, t);
    }
    if n < Length(a, b) {
      SideStep(n, a, b, t, u);
    }
  }

  /** The first n answers of a peer in an uninterrupted session. */
  ghost function HonestReplies<D>(s: Store<D>, peer: Store<D>, now: nat, peerNow: nat, k: nat, n: nat): seq<Message<D>>
    requires k <= n <= Length(s, peer)
    decreases n - k
  {
    if k == n then [] else
      SideStep(k, s, peer, now, peerNow);
      [Generate(SideAfter(k, peer, s, peerNow, now), peerNow).msg] + HonestReplies(s, peer, now, peerNow, k + 1, n)
  }

  /** With such a peer the client's loop ends as the session does, and if the stream breaks after n answers the
      client's store is the one it has after n + 1 rounds. */
  lemma {:induction false} HonestSession<D>(s: Store<D>, peer: Store<D>, now: nat, peerNow: nat, k: nat, n: nat)
    requires k <= n <= Length(s, peer) && k < Length(s, peer)
    ensures
      var e := ClientLoop(SideAfter(k, s, peer, now, peerNow), HonestReplies(s, peer, now, peerNow, k, n), now);
      && (e.finish == (if n == Length(s, peer) then Completed else Broken))
      && e.side.store == SideAfter(if n == Length(s, peer) then n else n + 1, s, peer, now, peerNow).store
    decreases n - k
  {
    hide Generate, SideAfter, CanGenerate, Length;
    SideStep(k, s, peer, now, peerNow);
    if k < n {
      var replies := HonestReplies(s, peer, now, peerNow, k, n);
      assert replies[1..] == HonestReplies(s, peer, now, peerNow, k + 1, n);
      if k + 1 < Length(s, peer) {
        HonestSession(s, peer, now, peerNow, k + 1, n);
      }
    }
  }

  /** Messages as requests for one mesh. */
  function Enveloped<D>(mesh: string, msgs: seq<Message<D>>): seq<Envelope<D>> {
    if msgs == [] then [] else [Envelope(mesh, msgs[0])] + Enveloped(mesh, msgs[1..])
  }

  /** And so does the server's loop with an uninterrupted client: after all of a session's requests it has
      completed with the session's result. A stream that breaks after n requests leaves the server where it
      is after n rounds, and so does one on which the last answer cannot be sent. */
  lemma {:induction false} HonestRequests<D>(s: Store<D>, peer: Store<D>, now: nat, peerNow: nat, mesh: string, unsent: bool, k: nat, n: nat)
    requires k <= n <= Length(s, peer) && k < Length(s, peer)
    ensures
      var requests := Enveloped(mesh, HonestReplies(s, peer, now, peerNow, k, n));
      var e := ServerLoop(SideAfter(k, s, peer, now, peerNow), mesh, requests, unsent, now);
      && (e.finish == if n == Length(s, peer) && !unsent then Completed else Broken)
      && e.side.store == SideAfter(n, s, peer, now, peerNow).store
    decreases n - k
  {
    hide Generate, SideAfter, CanGenerate, Length;
    if k < n {
      SideStep(k, s, peer, now, peerNow);
      var replies := HonestReplies(s, peer, now, peerNow, k, n);
      var requests := Enveloped(mesh, replies);
      assert replies[1..] == HonestReplies(s, peer, now, peerNow, k + 1, n);
      assert requests[1..] == Enveloped(mesh, replies[1..]);
      EnvelopedLength(mesh, replies[1..]);
      HonestLength(s, peer, now, peerNow, k + 1, n);
      if k + 1 < n {
        HonestRequests(s, peer, now, peerNow, mesh, unsent, k + 1, n);
      }
    }
  }

  lemma {:induction false} EnvelopedLength<D>(mesh: string, msgs: seq<Message<D>>)
    ensures |Enveloped(mesh, msgs)| == |msgs|
  {
    if msgs != [] {
      EnvelopedLength(mesh, msgs[1..]);
    }
  }

  lemma {:induction false} HonestLength<D>(s: Store<D>, peer: Store<D>, now: nat, peerNow: nat, k: nat, n: nat)
    requires k <= n <= Length(s, peer)
    ensures |HonestReplies(s, peer, now, peerNow, k, n)| == n - k
    decreases n - k
  {
    if k < n {
      HonestLength(s, peer, now, peerNow, k + 1, n);
    }
  }

  /** A whole session seen from the server. */
  lemma ServerSessionIsSession<D>(s: Store<D>, peer: Store<D>, now: nat, peerNow: nat, mesh: string)
    ensures
      var requests := Enveloped(mesh, HonestReplies(s, peer, now, peerNow, 0, Length(s, peer)));
      var e := ServerLoop(Fresh(s), mesh, requests, false, now);
      e.finish == Completed && e.side.store == Synced(s, peer, now, peerNow)
  {
    hide ServerLoop, HonestReplies, Synced;
    AtTheStart(s, peer, now, peerNow);
    HonestRequests(s, peer, now, peerNow, mesh, false, 0, Length(s, peer));
    AtTheEnd(s, peer, now, peerNow);
  }

  lemma AtTheStart<D>(s: Store<D>, peer: Store<D>, now: nat, peerNow: nat)
    ensures SideAfter(0, s, peer, now, peerNow) == Fresh(s) && 0 < Length(s, peer)
  {}

  /** One iteration of both loops. */
  method RunRound<D>(client: TwoPhaseSyncer<D>, server: TwoPhaseSyncer<D>, t: nat, u: nat)
    returns (clientDone: bool, serverDone: bool)
    requires client.Valid() && server.Valid() && client.Repr() !! server.Repr()
    requires CanGenerate(client.Value()) && CanGenerate(server.Value())
    modifies client.Repr(), server.Repr()
    ensures Link(client.Value(), server.Value(), clientDone, serverDone)
         == Round(Link(old(client.Value()), old(server.Value()), false, false), t, u)
  {
    hide CanGenerate, Generate;
    var msg, moreMessages := client.GenerateMessage(t);
    var reply, moreReplies := server.GenerateMessage(u);
    if msg != NoMessage {
      server.RecvMessage(msg);
    }
    if reply != NoMessage {
      client.RecvMessage(reply);
    }
    return !moreMessages, !moreReplies;
  }

  /** Both loops over one uninterrupted stream. The loop invariant carries the unreachability of
      every panic; `rounds` counts the iterations. */
  method SyncMesh<D>(client: TwoPhaseSyncer<D>, server: TwoPhaseSyncer<D>, t: nat, u: nat) returns (rounds: nat)
    requires client.Valid() && server.Valid() && client.Repr() !! server.Repr()
    requires client.Value() == Side(HASH, None, NoMessage, client.store.Value())
    requires server.Value() == Side(HASH, None, NoMessage, server.store.Value())
    modifies client.Repr(), server.Repr()
    ensures client.store.Value() == Synced(old(client.store.Value()), old(server.store.Value()), t, u)
    ensures server.store.Value() == Synced(old(server.store.Value()), old(client.store.Value()), u, t)
    ensures rounds == Length(old(client.store.Value()), old(server.store.Value()))
    ensures client.state == server.state
  {
    hide CanGenerate, Round, SideAfter, Length;
    ghost var a, b := client.store.Value(), server.store.Value();
    var clientDone, serverDone := false, false;
    rounds := 0;
    LockStep(a, b, 0, t, u);
    while !clientDone && !serverDone
      invariant rounds <= Length(a, b)
      invariant Link(client.Value(), server.Value(), clientDone, serverDone) == Rounds(Start(a, b), rounds, t, u)
      invariant client.state == server.state
      invariant clientDone == serverDone == (rounds == Length(a, b))
      decreases Length(a, b) - rounds
    {
      LockStep(a, b, rounds, t, u);
      LockStep(a, b, rounds + 1, t, u);
      clientDone, serverDone := RunRound(client, server, t, u);
      rounds := rounds + 1;
    }
    LockStep(a, b, rounds, t, u);
    AtTheEnd(a, b, t, u);
    AtTheEnd(b, a, u, t);
  }

  lemma AtTheEnd<D>(s: Store<D>, peer: Store<D>, now: nat, peerNow: nat)
    ensures SideAfter(Length(s, peer), s, peer, now, peerNow).store == Synced(s, peer, now, peerNow)
    ensures Length(s, peer) == Length(peer, s)
  {
    hide ClockHash, Tick, ClockMerge, DiffMap, StateOf, Replica.Merge, SnapshotFor, Joined, Wanted, Answer, Ticked;
  }
}
