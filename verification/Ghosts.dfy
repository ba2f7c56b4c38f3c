/** No ghost entities: a client that left or timed out leaves no entity behind for good, although its last
    scene may still be applied after it is gone. The server's mutex is held by one step at a time; the
    simulation thread applies and drops between two of its critical sections. */
module Ghosts {
  import opened Options
  import opened Wire
  import opened Protocol
  import opened Scenes
  import opened Replication
  import opened Ownership
  import opened Parts
  import opened Server
  import opened Replicators

  /** Where the simulation thread is in applyClientStates. */
  datatype Phase =
    | Idle
    | Applying(held: seq<ReceivedState>)   // drained, not yet applied
    | Dropping(gone: seq<nat>)             // swapped out, not yet dropped

  datatype Host = Host(server: ServerState, phase: Phase, r: ReplicatorState, scene: SceneState)

  const NEW_HOST := Host(NEW_SERVER, Idle, NewReplicator(SERVER_ID), EMPTY_SCENE)

  datatype Move =
    | JoinMove(join: JoinRequest, port: Option<int>)
    | UpdateMove(id: nat, req: UpdateRequest)
    | TimeOutMove(id: nat)
    | Elsewhere(to: ServerState)         // sends, publishes, drains: none of what this is about
    | DrainMove(drained: seq<ReceivedState>)
    | ApplyMove
    | SwapMove
    | DropMove
    | FinishMove
    | TrackMove(entity: nat)
    | UntrackMove(entity: nat)
    | BindMove(netId: nat, entity: nat)
    | ExtraMove(id: nat, extra: Bytes)
    | SceneMove(scene: SceneState)              // the game's own changes

  ghost predicate Possible(h: Host, m: Move) {
    match m
    case UpdateMove(id, req) => req.hasState ==> Honest(id, req.state)
    case Elsewhere(to) =>
      && to.clients.Keys == h.server.clients.Keys && to.nextId == h.server.nextId
      && to.departed == h.server.departed && to.states == h.server.states && ServerOk(to)
    case DrainMove(drained) => h.phase == Idle && Enumerates(drained, h.server.states)
    case ApplyMove => h.phase.Applying? && h.phase.held != []
    case SwapMove => h.phase == Applying([])
    case DropMove => h.phase.Dropping? && h.phase.gone != []
    case FinishMove => h.phase == Dropping([])
    case TrackMove(e) => e < h.scene.nextId && (e !in h.r.netIds ==> h.r.nextLocal < LOCAL_SPAN)
    case BindMove(netId, e) => e < h.scene.nextId && Bindable(h, netId)
    case SceneMove(to) => SceneOk(to) && h.scene.nextId <= to.nextId
    case _ => true
  }

  function Moved(h: Host, m: Move): Host
    requires Possible(h, m)
  {
    match m
    case JoinMove(req, port) => h.(server := Join(h.server, req, port).0)
    case UpdateMove(id, req) => h.(server := Update(h.server, id, req).0)
    case TimeOutMove(id) => h.(server := Retire(h.server, id))
    case Elsewhere(to) => h.(server := to)
    case DrainMove(drained) => h.(server := h.server.(states := map[]), phase := Applying(drained))
    case ApplyMove =>
      var (r, s) := ApplyPayload(h.r, h.scene, h.phase.held[0].payload, h.phase.held[0].from);
      h.(r := r, scene := s, phase := Applying(h.phase.held[1..]))
    case SwapMove => h.(server := h.server.(departed := []), phase := Dropping(h.server.departed))
    case DropMove =>
      var (r, s) := DropOwner(h.r, h.scene, h.phase.gone[0]);
      h.(r := r, scene := s, phase := Dropping(h.phase.gone[1..]))
    case FinishMove => h.(phase := Idle)
    case TrackMove(e) => h.(r := Track(h.r, e).0)
    case UntrackMove(e) => h.(r := Untrack(h.r, e))
    case BindMove(netId, e) => h.(r := Bind(h.r, netId, e))
    case ExtraMove(id, extra) => h.(r := SetExtra(h.r, id, extra))
    case SceneMove(to) => h.(scene := to)
  }

  // ---- the invariant --------------------------------------------------------------------------------

  ghost predicate Retired(s: ServerState, id: nat) { 1 <= id < s.nextId && id !in s.clients }

  ghost predicate AwaitsDrop(h: Host, id: nat) {
    id in h.server.departed || (h.phase.Dropping? && id in h.phase.gone)
  }

  /** The owner of this id has not already been dropped. */
  ghost predicate Bindable(h: Host, netId: nat) {
    !Retired(h.server, OwnerOf(netId)) || AwaitsDrop(h, OwnerOf(netId))
  }

  ghost predicate ScenesOk(s: ServerState, phase: Phase) {
    && (forall id <- s.states :: id in s.clients && s.states[id].from == id && Honest(id, s.states[id].payload))
    && (phase.Applying? ==> forall st <- phase.held ::
          Honest(st.from, st.payload) && (st.from in s.clients || st.from in s.departed))
  }

  ghost predicate HostOk(h: Host) {
    && ServerOk(h.server) && ReplicatorOk(h.r, h.scene) && h.r.self == SERVER_ID && Separate(h.r)
    && ScenesOk(h.server, h.phase)
    && (forall id: nat :: Retired(h.server, id) ==> AwaitsDrop(h, id) || OwnsNothing(h.r, id))
    && (forall id: nat :: AwaitsDrop(h, id) ==> Retired(h.server, id))
  }

  /** Gone, dropped, and nothing left. */
  ghost predicate Settled(h: Host, id: nat) {
    Retired(h.server, id) && !AwaitsDrop(h, id) && OwnsNothing(h.r, id)
  }

  // ---- the server's critical sections ---------------------------------------------------------------

  /** Clients come with fresh ids and go into departed; scenes are of live clients. */
  ghost predicate ServerMoves(s: ServerState, s': ServerState) {
    && s.nextId <= s'.nextId && s.departed <= s'.departed
    && (forall id <- s'.clients :: id in s.clients || id >= s.nextId)
    && (forall id <- s.clients :: id in s'.clients || id in s'.departed)
    && (forall id <- s'.departed :: id in s.departed || (id in s.clients && id !in s'.clients))
    && (forall id: nat :: s.nextId <= id < s'.nextId ==> id in s'.clients)
  }

  lemma RetireMoves(s: ServerState, id: nat)
    requires ServerOk(s) && forall k <- s.states :: k in s.clients && s.states[k].from == k && Honest(k, s.states[k].payload)
    ensures var s' := Retire(s, id);
      && ServerOk(s') && ServerMoves(s, s')
      && forall k <- s'.states :: k in s'.clients && s'.states[k].from == k && Honest(k, s'.states[k].payload)
  {
  }

  lemma JoinMoves(s: ServerState, req: JoinRequest, port: Option<int>)
    requires ServerOk(s)
    ensures var s' := Join(s, req, port).0;
      ServerOk(s') && ServerMoves(s, s') && s'.states == s.states && s.clients.Keys <= s'.clients.Keys
  {
  }

  lemma UpdateMoves(s: ServerState, id: nat, req: UpdateRequest)
    requires ServerOk(s) && (req.hasState ==> Honest(id, req.state))
    requires forall k <- s.states :: k in s.clients && s.states[k].from == k && Honest(k, s.states[k].payload)
    ensures var s' := Update(s, id, req).0;
      && ServerOk(s') && ServerMoves(s, s')
      && forall k <- s'.states :: k in s'.clients && s'.states[k].from == k && Honest(k, s'.states[k].payload)
  {
    if req.id == id && id in s.clients {
      var s1 := Absorb(s, id, req);
      assert s1.clients.Keys == s.clients.Keys;
      if req.kind == LEAVE {
        RetireMoves(s1, id);
      }
    }
  }

  lemma ServerKeeps(h: Host, h': Host)
    requires HostOk(h) && h' == h.(server := h'.server) && ServerOk(h'.server) && ServerMoves(h.server, h'.server)
    requires forall k <- h'.server.states :: k in h'.server.clients && h'.server.states[k].from == k && Honest(k, h'.server.states[k].payload)
    ensures HostOk(h') && forall id: nat :: Settled(h, id) ==> Settled(h', id)
  {
    var s, s' := h.server, h'.server;
    forall id: nat | id in s.departed ensures id in s'.departed {
      var i :| 0 <= i < |s.departed| && s.departed[i] == id;
      assert s'.departed[i] == id;
    }
    forall id: nat | Retired(s', id) ensures AwaitsDrop(h', id) || OwnsNothing(h'.r, id) {
      assert Retired(s, id) || id in s.clients;
      assert Retired(s, id) ==> AwaitsDrop(h, id) || OwnsNothing(h.r, id);
    }
    forall id: nat | AwaitsDrop(h', id) ensures Retired(s', id) {
      assert AwaitsDrop(h, id) ==> Retired(s, id);
    }
  }

  // ---- the simulation thread ------------------------------------------------------------------------

  lemma ApplyKeeps(h: Host)
    requires HostOk(h) && Possible(h, ApplyMove)
    ensures HostOk(Moved(h, ApplyMove)) && forall id: nat :: Settled(h, id) ==> Settled(Moved(h, ApplyMove), id)
  {
    var h' := Moved(h, ApplyMove);
    var st := h.phase.held[0];
    assert st in h.phase.held;
    ApplyBringsOwn(h.r, h.scene, st.payload, st.from);
    PayloadParts(h.r, h.scene, st.payload, st.from, {});
    assert forall x <- h'.phase.held :: x in h.phase.held;
    forall id: nat | Retired(h.server, id) ensures AwaitsDrop(h', id) || OwnsNothing(h'.r, id) {
      assert AwaitsDrop(h, id) || OwnsNothing(h.r, id);
    }
    forall id: nat | AwaitsDrop(h', id) ensures Retired(h'.server, id) {
      assert AwaitsDrop(h, id);
    }
  }

  lemma DropKeeps(h: Host)
    requires HostOk(h) && Possible(h, DropMove)
    ensures HostOk(Moved(h, DropMove)) && forall id: nat :: Settled(h, id) ==> Settled(Moved(h, DropMove), id)
    ensures OwnsNothing(Moved(h, DropMove).r, h.phase.gone[0])
  {
    var h' := Moved(h, DropMove);
    var gone := h.phase.gone[0];
    assert AwaitsDrop(h, gone);
    DropLeavesNothing(h.r, h.scene, gone);
    if gone != SERVER_ID {
      DropParts(h.r, h.scene, gone, {});
    }
    forall id: nat | Retired(h.server, id) ensures AwaitsDrop(h', id) || OwnsNothing(h'.r, id) {
      assert AwaitsDrop(h, id) || OwnsNothing(h.r, id);
    }
    forall id: nat | AwaitsDrop(h', id) ensures Retired(h'.server, id) {
      assert AwaitsDrop(h, id);
    }
  }

  lemma PhaseKeeps(h: Host, m: Move)
    requires HostOk(h) && Possible(h, m) && (m.DrainMove? || m.SwapMove? || m.FinishMove?)
    ensures HostOk(Moved(h, m)) && forall id: nat :: Settled(h, id) ==> Settled(Moved(h, m), id)
  {
    var h' := Moved(h, m);
    if m.DrainMove? {
      var keys: seq<nat> :| Listing(m.drained, keys, h.server.states);
      forall st | st in m.drained ensures Honest(st.from, st.payload) && st.from in h.server.clients {
        var i :| 0 <= i < |m.drained| && m.drained[i] == st;
        assert keys[i] in h.server.states;
      }
    }
    assert forall id: nat :: AwaitsDrop(h', id) <==> AwaitsDrop(h, id);
  }

  /** Binding an id makes no ghost if and only if its owner has not already been dropped. */
  lemma BindExactly(h: Host, netId: nat, e: nat)
    requires HostOk(h) && e < h.scene.nextId
    ensures HostOk(h.(r := Bind(h.r, netId, e))) <==> Bindable(h, netId)
  {
    var h' := h.(r := Bind(h.r, netId, e));
    BindKeeps(h.r, h.scene, netId, e);
    assert forall id: nat :: AwaitsDrop(h', id) <==> AwaitsDrop(h, id);
    if Bindable(h, netId) {
      forall id: nat | Retired(h'.server, id) ensures AwaitsDrop(h', id) || OwnsNothing(h'.r, id) {
        assert AwaitsDrop(h, id) || OwnsNothing(h.r, id);
      }
    } else {
      assert netId in h'.r.entities && !OwnsNothing(h'.r, OwnerOf(netId));
      assert Retired(h'.server, OwnerOf(netId)) && !AwaitsDrop(h', OwnerOf(netId));
    }
  }

  lemma BindMoveKeeps(h: Host, netId: nat, e: nat)
    requires HostOk(h) && Possible(h, BindMove(netId, e))
    ensures HostOk(Moved(h, BindMove(netId, e)))
    ensures forall id: nat :: Settled(h, id) ==> Settled(Moved(h, BindMove(netId, e)), id)
  {
    BindExactly(h, netId, e);
    BindKeeps(h.r, h.scene, netId, e);
    var h' := Moved(h, BindMove(netId, e));
    forall id: nat | Settled(h, id) ensures Settled(h', id) {
      assert id != OwnerOf(netId);
    }
  }

  lemma GameKeeps(h: Host, m: Move)
    requires HostOk(h) && Possible(h, m) && (m.TrackMove? || m.UntrackMove? || m.ExtraMove? || m.SceneMove?)
    ensures HostOk(Moved(h, m)) && forall id: nat :: Settled(h, id) ==> Settled(Moved(h, m), id)
  {
    var h' := Moved(h, m);
    match m {
      case TrackMove(e) =>
        if e !in h.r.netIds {
          TrackFresh(h.r, h.scene, e);
        }
      case UntrackMove(e) => UntrackKeeps(h.r, h.scene, e);
      case _ =>
    }
    assert forall id: nat :: id != SERVER_ID && OwnsNothing(h.r, id) ==> OwnsNothing(h'.r, id);
    assert forall id: nat :: AwaitsDrop(h', id) <==> AwaitsDrop(h, id);
  }

  // ---- the theorems ---------------------------------------------------------------------------------

  lemma MoveKeeps(h: Host, m: Move)
    requires HostOk(h) && Possible(h, m)
    ensures HostOk(Moved(h, m)) && forall id: nat :: Settled(h, id) ==> Settled(Moved(h, m), id)
  {
    match m
    case JoinMove(req, port) =>
      JoinMoves(h.server, req, port);
      ServerKeeps(h, Moved(h, m));
    case UpdateMove(id, req) =>
      UpdateMoves(h.server, id, req);
      ServerKeeps(h, Moved(h, m));
    case TimeOutMove(id) =>
      RetireMoves(h.server, id);
      ServerKeeps(h, Moved(h, m));
    case Elsewhere(_) => ServerKeeps(h, Moved(h, m));
    case ApplyMove => ApplyKeeps(h);
    case DropMove => DropKeeps(h);
    case DrainMove(_) => PhaseKeeps(h, m);
    case SwapMove => PhaseKeeps(h, m);
    case FinishMove => PhaseKeeps(h, m);
    case BindMove(netId, e) => BindMoveKeeps(h, netId, e);
    case _ => GameKeeps(h, m);
  }

  ghost predicate History(h: Host, moves: seq<Move>)
    decreases |moves|
  {
    moves != [] ==> Possible(h, moves[0]) && History(Moved(h, moves[0]), moves[1..])
  }

  ghost function AfterAll(h: Host, moves: seq<Move>): Host
    decreases |moves|
  {
    if moves == [] || !Possible(h, moves[0]) then h else AfterAll(Moved(h, moves[0]), moves[1..])
  }

  /** Once a client is gone and dropped, nothing of it ever comes back. */
  lemma {:induction false} SettledForever(h: Host, moves: seq<Move>)
    requires HostOk(h) && History(h, moves)
    ensures HostOk(AfterAll(h, moves)) && forall id: nat :: Settled(h, id) ==> Settled(AfterAll(h, moves), id)
    decreases |moves|
  {
    if moves != [] {
      MoveKeeps(h, moves[0]);
      SettledForever(Moved(h, moves[0]), moves[1..]);
    }
  }

  /** A client that is gone never departs a second time. */
  lemma DepartsOnce(h: Host, m: Move, id: nat)
    requires HostOk(h) && Possible(h, m) && Retired(h.server, id) && id !in h.server.departed
    ensures Retired(Moved(h, m).server, id) && id !in Moved(h, m).server.departed
  {
    match m
    case JoinMove(req, port) => JoinMoves(h.server, req, port);
    case UpdateMove(k, req) => UpdateMoves(h.server, k, req);
    case TimeOutMove(k) => RetireMoves(h.server, k);
    case _ =>
  }

  /** Progress: whoever was gone when applyClientStates swapped the departed out, so is in departed no more,
      has nothing left as soon as that call has ended, whatever happened in between. */
  lemma {:induction false} OneCallSettles(h: Host, moves: seq<Move>, id: nat)
    requires HostOk(h) && History(h, moves) && Retired(h.server, id) && id !in h.server.departed
    requires AfterAll(h, moves).phase == Idle
    ensures Settled(AfterAll(h, moves), id)
    decreases |moves|
  {
    if moves == [] {
      assert AwaitsDrop(h, id) || OwnsNothing(h.r, id);
    } else {
      MoveKeeps(h, moves[0]);
      DepartsOnce(h, moves[0], id);
      OneCallSettles(Moved(h, moves[0]), moves[1..], id);
    }
  }

  /** At every point of every history, a client that is gone is waiting to be dropped or owns nothing;
      only clients that are gone are ever dropped; and between two calls of applyClientStates, whoever is
      gone and not waiting for the next call has no entity left. */
  lemma NoGhosts(moves: seq<Move>, id: nat)
    requires History(NEW_HOST, moves)
    ensures var h := AfterAll(NEW_HOST, moves);
      && (Retired(h.server, id) ==> AwaitsDrop(h, id) || OwnsNothing(h.r, id))
      && (AwaitsDrop(h, id) ==> Retired(h.server, id))
      && (Retired(h.server, id) && h.phase == Idle && id !in h.server.departed ==>
            OwnsNothing(h.r, id) && forall k <- View(h.r, h.scene) :: OwnerOf(k) != id)
  {
    SettledForever(NEW_HOST, moves);
  }

  // ---- applyClientStates as one call ----------------------------------------------------------------

  function ApplyStates(r: ReplicatorState, s: SceneState, states: seq<ReceivedState>): (ReplicatorState, SceneState) {
    if states == [] then (r, s) else
    var (r1, s1) := ApplyStates(r, s, states[..|states| - 1]);
    ApplyPayload(r1, s1, states[|states| - 1].payload, states[|states| - 1].from)
  }

  function DropOwners(r: ReplicatorState, s: SceneState, owners: seq<nat>): (ReplicatorState, SceneState) {
    if owners == [] then (r, s) else
    var (r1, s1) := DropOwners(r, s, owners[..|owners| - 1]);
    DropOwner(r1, s1, owners[|owners| - 1])
  }

  /** Clients submit what they own. */
  ghost predicate HonestScenes(states: map<nat, ReceivedState>) {
    forall id <- states :: states[id].from == id && Honest(id, states[id].payload)
  }

  ghost predicate OneEach(states: seq<ReceivedState>) {
    && (forall i :: 0 <= i < |states| ==> Honest(states[i].from, states[i].payload))
    && (forall i, j :: 0 <= i < j < |states| ==> states[i].from != states[j].from)
  }

  /** Each sender's part becomes what its scene makes of it, and nobody else's changes. */
  ghost predicate EachPart(r: ReplicatorState, s: SceneState, r': ReplicatorState, s': SceneState, states: seq<ReceivedState>) {
    && ReplicatorOk(r', s') && r'.self == r.self && Separate(r')
    && (forall k: nat :: (forall i :: 0 <= i < |states| ==> states[i].from != k) ==>
          Part(k, View(r', s')) == Part(k, View(r, s)) && Previous(r', k) == Previous(r, k))
    && (forall i :: 0 <= i < |states| ==> PartOf(r, s, r', s', states[i]))
  }

  ghost predicate PartOf(r: ReplicatorState, s: SceneState, r': ReplicatorState, s': SceneState, st: ReceivedState) {
    Part(st.from, View(r', s')) == PartAfter(st.from, Part(st.from, View(r, s)), Previous(r, st.from), r.self, st.payload)
  }

  lemma OneMoreState(r: ReplicatorState, s: SceneState, r1: ReplicatorState, s1: SceneState, front: seq<ReceivedState>, last: ReceivedState)
    requires EachPart(r, s, r1, s1, front) && Honest(last.from, last.payload)
    requires forall i :: 0 <= i < |front| ==> front[i].from != last.from
    ensures var (r', s') := ApplyPayload(r1, s1, last.payload, last.from); EachPart(r, s, r', s', front + [last])
  {
    var (r', s') := ApplyPayload(r1, s1, last.payload, last.from);
    var all := front + [last];
    PayloadParts(r1, s1, last.payload, last.from, {});
    forall k: nat | forall i :: 0 <= i < |all| ==> all[i].from != k
      ensures Part(k, View(r', s')) == Part(k, View(r, s)) && Previous(r', k) == Previous(r, k)
    {
      assert all[|front|] == last && forall i :: 0 <= i < |front| ==> front[i] == all[i];
    }
    forall i | 0 <= i < |all| ensures PartOf(r, s, r', s', all[i]) {
      if i < |front| {
        assert PartOf(r, s, r1, s1, front[i]) && all[i] == front[i];
      }
    }
  }

  lemma {:induction false} StatesParts(r: ReplicatorState, s: SceneState, states: seq<ReceivedState>)
    requires ReplicatorOk(r, s) && Separate(r) && OneEach(states)
    ensures var (r', s') := ApplyStates(r, s, states); EachPart(r, s, r', s', states)
    decreases |states|
  {
    if states != [] {
      var front, last := states[..|states| - 1], states[|states| - 1];
      var (r1, s1) := ApplyStates(r, s, front);
      StatesParts(r, s, front);
      assert states == front + [last] && forall i :: 0 <= i < |front| ==> front[i] == states[i];
      OneMoreState(r, s, r1, s1, front, last);
    }
  }

  lemma {:induction false} OwnersGo(r: ReplicatorState, s: SceneState, owners: seq<nat>)
    requires ReplicatorOk(r, s)
    ensures var (r', s') := DropOwners(r, s, owners);
      && ReplicatorOk(r', s') && r'.self == r.self
      && (forall id: nat :: (id in owners && id != r.self) || OwnsNothing(r, id) ==> OwnsNothing(r', id))
    decreases |owners|
  {
    if owners != [] {
      var (r1, s1) := DropOwners(r, s, owners[..|owners| - 1]);
      OwnersGo(r, s, owners[..|owners| - 1]);
      DropLeavesNothing(r1, s1, owners[|owners| - 1]);
    }
  }

  lemma {:induction false} OwnersParts(r: ReplicatorState, s: SceneState, owners: seq<nat>)
    requires ReplicatorOk(r, s) && Separate(r)
    ensures var (r', s') := DropOwners(r, s, owners);
      && ReplicatorOk(r', s') && r'.self == r.self && Separate(r')
      && forall k: nat :: Part(k, View(r', s')) == if k in owners && k != r.self then map[] else Part(k, View(r, s))
    decreases |owners|
  {
    if owners != [] {
      var (r1, s1) := DropOwners(r, s, owners[..|owners| - 1]);
      OwnersParts(r, s, owners[..|owners| - 1]);
      if owners[|owners| - 1] != r.self {
        DropParts(r1, s1, owners[|owners| - 1], {});
      }
    }
  }

  /** What the call leaves of each owner's part: nothing of those who departed, of the others what their held
      scene makes of it, or what it was. */
  lemma CallParts(r: ReplicatorState, s: SceneState, states: map<nat, ReceivedState>, drained: seq<ReceivedState>, gone: seq<nat>, k: nat)
    requires ReplicatorOk(r, s) && Separate(r) && HonestScenes(states) && Enumerates(drained, states)
    ensures var (r1, s1) := ApplyStates(r, s, drained);
      var (r2, s2) := DropOwners(r1, s1, gone);
      Part(k, View(r2, s2)) ==
        if k in gone && k != r.self then map[]
        else if k in states then PartAfter(k, Part(k, View(r, s)), Previous(r, k), r.self, states[k].payload)
        else Part(k, View(r, s))
  {
    var keys: seq<nat> :| Listing(drained, keys, states) && forall id :: id in keys <==> id in states;
    assert forall i :: 0 <= i < |drained| ==> drained[i].from == keys[i] && keys[i] in states;
    StatesParts(r, s, drained);
    var (r1, s1) := ApplyStates(r, s, drained);
    OwnersParts(r1, s1, gone);
    if k in states {
      var i :| 0 <= i < |keys| && keys[i] == k;
      assert drained[i].from == k && drained[i].payload == states[k].payload && PartOf(r, s, r1, s1, drained[i]);
    }
  }

  // ---- the call as a history --------------------------------------------------------------------------

  function Times(m: Move, n: nat): seq<Move> { if n == 0 then [] else [m] + Times(m, n - 1) }

  /** The moves of one call with nobody in between. */
  function Call(drained: seq<ReceivedState>, gone: seq<nat>): seq<Move> {
    [DrainMove(drained)] + (Times(ApplyMove, |drained|) + ([SwapMove] + (Times(DropMove, |gone|) + [FinishMove])))
  }

  /** moves is possible and leads from h to h'. */
  ghost predicate Leads(h: Host, moves: seq<Move>, h': Host) { History(h, moves) && AfterAll(h, moves) == h' }

  lemma FirstMove(h: Host, m: Move, rest: seq<Move>, h': Host)
    requires Possible(h, m) && Leads(Moved(h, m), rest, h')
    ensures Leads(h, [m] + rest, h')
  {
    assert ([m] + rest)[0] == m && ([m] + rest)[1..] == rest;
  }

  lemma {:induction false} ApplyFront(r: ReplicatorState, s: SceneState, states: seq<ReceivedState>)
    requires states != []
    ensures var (r1, s1) := ApplyPayload(r, s, states[0].payload, states[0].from);
      ApplyStates(r, s, states) == ApplyStates(r1, s1, states[1..])
    decreases |states|
  {
    if |states| == 1 {
      assert ApplyStates(r, s, states[..0]) == (r, s);
    } else {
      ApplyFront(r, s, states[..|states| - 1]);
      assert states[..|states| - 1][1..] == states[1..][..|states| - 2];
    }
  }

  lemma {:induction false} DropFront(r: ReplicatorState, s: SceneState, owners: seq<nat>)
    requires owners != []
    ensures var (r1, s1) := DropOwner(r, s, owners[0]);
      DropOwners(r, s, owners) == DropOwners(r1, s1, owners[1..])
    decreases |owners|
  {
    if |owners| == 1 {
      assert DropOwners(r, s, owners[..0]) == (r, s);
    } else {
      DropFront(r, s, owners[..|owners| - 1]);
      assert owners[..|owners| - 1][1..] == owners[1..][..|owners| - 2];
    }
  }

  lemma {:induction false} Applies(h: Host, rest: seq<Move>, h': Host)
    requires h.phase.Applying?
    requires var (r, s) := ApplyStates(h.r, h.scene, h.phase.held); Leads(h.(r := r, scene := s, phase := Applying([])), rest, h')
    ensures Leads(h, Times(ApplyMove, |h.phase.held|) + rest, h')
    decreases |h.phase.held|
  {
    if h.phase.held == [] {
      assert [] + rest == rest;
    } else {
      ApplyFront(h.r, h.scene, h.phase.held);
      Applies(Moved(h, ApplyMove), rest, h');
      var more := Times(ApplyMove, |h.phase.held| - 1);
      FirstMove(h, ApplyMove, more + rest, h');
      assert [ApplyMove] + (more + rest) == Times(ApplyMove, |h.phase.held|) + rest;
    }
  }

  lemma {:induction false} Drops(h: Host, rest: seq<Move>, h': Host)
    requires h.phase.Dropping?
    requires var (r, s) := DropOwners(h.r, h.scene, h.phase.gone); Leads(h.(r := r, scene := s, phase := Dropping([])), rest, h')
    ensures Leads(h, Times(DropMove, |h.phase.gone|) + rest, h')
    decreases |h.phase.gone|
  {
    if h.phase.gone == [] {
      assert [] + rest == rest;
    } else {
      DropFront(h.r, h.scene, h.phase.gone);
      Drops(Moved(h, DropMove), rest, h');
      var more := Times(DropMove, |h.phase.gone| - 1);
      FirstMove(h, DropMove, more + rest, h');
      assert [DropMove] + (more + rest) == Times(DropMove, |h.phase.gone|) + rest;
    }
  }

  /** Draining, applying, swapping and dropping, as the machine does it move by move. */
  lemma CallIsHistory(h: Host, drained: seq<ReceivedState>)
    requires h.phase == Idle && Enumerates(drained, h.server.states)
    ensures var (r1, s1) := ApplyStates(h.r, h.scene, drained);
      var (r2, s2) := DropOwners(r1, s1, h.server.departed);
      Leads(h, Call(drained, h.server.departed), Host(h.server.(states := map[], departed := []), Idle, r2, s2))
  {
    var (r1, s1) := ApplyStates(h.r, h.scene, drained);
    var (r2, s2) := DropOwners(r1, s1, h.server.departed);
    var h1 := Moved(h, DrainMove(drained));
    var h2 := h1.(r := r1, scene := s1, phase := Applying([]));
    var h3 := Moved(h2, SwapMove);
    var h4 := h3.(r := r2, scene := s2, phase := Dropping([]));
    var h5 := Moved(h4, FinishMove);
    assert [FinishMove] + [] == [FinishMove] && Leads(h5, [], h5);
    FirstMove(h4, FinishMove, [], h5);
    Drops(h3, [FinishMove], h5);
    var tail := Times(DropMove, |h.server.departed|) + [FinishMove];
    FirstMove(h2, SwapMove, tail, h5);
    Applies(h1, [SwapMove] + tail, h5);
    FirstMove(h, DrainMove(drained), Times(ApplyMove, |drained|) + ([SwapMove] + tail), h5);
  }

  /** With nobody in between: every held scene is applied, then everyone who departed is dropped. The call is a
      history of the machine above; whoever departed owns and shows nothing afterwards; and when clients have
      submitted what they own, each owner's part is what its scene says. */
  method ApplyClientStates(server: SessionServer, replicator: SceneReplicator, scene: Scene)
    requires ReplicatorOk(replicator.State(), scene.View())
    modifies server, replicator, scene
    ensures server.View() == old(server.View()).(states := map[], departed := [])
    ensures ReplicatorOk(replicator.State(), scene.View())
    ensures exists drained ::
      Leads(Host(old(server.View()), Idle, old(replicator.State()), old(scene.View())), Call(drained, old(server.departed)),
            Host(server.View(), Idle, replicator.State(), scene.View()))
    ensures forall id: nat :: id in old(server.departed) && id != replicator.self ==>
      OwnsNothing(replicator.State(), id) && Part(id, View(replicator.State(), scene.View())) == map[]
    ensures HonestScenes(old(server.states)) && Separate(old(replicator.State())) ==> forall k: nat ::
      var was := Part(k, View(old(replicator.State()), old(scene.View())));
      Part(k, View(replicator.State(), scene.View())) ==
        if k in old(server.departed) && k != replicator.self then map[]
        else if k in old(server.states)
        then PartAfter(k, was, Previous(old(replicator.State()), k), replicator.self, old(server.states)[k].payload)
        else was
  {
    ghost var r, s, states := replicator.State(), scene.View(), server.states;
    ghost var h := Host(server.View(), Idle, r, s);
    var drained := server.DrainStates();
    ApplyDrained(replicator, scene, drained);
    var gone := server.SwapDeparted();
    ghost var r1, s1 := replicator.State(), scene.View();
    DropGone(replicator, scene, gone);
    CallIsHistory(h, drained);
    OwnersGo(r1, s1, gone);
    if HonestScenes(states) && Separate(r) {
      forall k: nat ensures Part(k, View(replicator.State(), scene.View())) ==
        if k in gone && k != r.self then map[]
        else if k in states then PartAfter(k, Part(k, View(r, s)), Previous(r, k), r.self, states[k].payload)
        else Part(k, View(r, s))
      {
        CallParts(r, s, states, drained, gone, k);
      }
    }
  }

  method ApplyDrained(replicator: SceneReplicator, scene: Scene, drained: seq<ReceivedState>)
    requires ReplicatorOk(replicator.State(), scene.View())
    modifies replicator, scene
    ensures ReplicatorOk(replicator.State(), scene.View())
    ensures (replicator.State(), scene.View()) == ApplyStates(old(replicator.State()), old(scene.View()), drained)
  {
    var i := 0;
    while i < |drained|
      invariant 0 <= i <= |drained| && ReplicatorOk(replicator.State(), scene.View())
      invariant (replicator.State(), scene.View()) == ApplyStates(old(replicator.State()), old(scene.View()), drained[..i])
    {
      assert drained[..i + 1][..i] == drained[..i];
      var ok := replicator.ApplySnapshot(scene, drained[i].payload, None, drained[i].from);
      i := i + 1;
    }
    assert drained[..i] == drained;
  }

  method DropGone(replicator: SceneReplicator, scene: Scene, gone: seq<nat>)
    requires ReplicatorOk(replicator.State(), scene.View())
    modifies replicator, scene
    ensures ReplicatorOk(replicator.State(), scene.View())
    ensures (replicator.State(), scene.View()) == DropOwners(old(replicator.State()), old(scene.View()), gone)
  {
    var i := 0;
    while i < |gone|
      invariant 0 <= i <= |gone| && ReplicatorOk(replicator.State(), scene.View())
      invariant (replicator.State(), scene.View()) == DropOwners(old(replicator.State()), old(scene.View()), gone[..i])
    {
      assert gone[..i + 1][..i] == gone[..i];
      replicator.Drop(scene, gone[i]);
      i := i + 1;
    }
    assert gone[..i] == gone;
  }
}
