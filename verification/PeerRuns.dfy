/** Whole lives of a peer session before it leaves: from its construction, listeners publish, the game tracks,
    binds and changes its scene, and applyUpdates is called, in any order. */
module PeerRuns {
  import opened Options
  import opened Wire
  import opened Protocol
  import opened Scenes
  import opened Replication
  import opened ReplicatorRuns
  import opened Ownership
  import opened Parts
  import opened Roster
  import opened Peers

  /** A peer session with its replicator and scene, and every roster event it was ever given. */
  datatype Life = Life(ps: PeerState, r: ReplicatorState, scene: SceneState, told: seq<RosterEvent>)

  function Begun(self: nat, scene: SceneState): Life {
    Life(PeerState(self, map[], map[]), NewReplicator(self), scene, [])
  }

  datatype Move =
    | Hear(id: nat, data: Bytes)        // the listener of a peer
    | Play(action: Action)              // the game, on the replicator or the scene
    | Update(events: seq<RosterEvent>, taken: Option<ReceivedState>, order: seq<nat>)

  /** Peers publish what they own and the server's snapshots carry what it owns. The game does not bind an id
      of a peer that was reported gone. */
  ghost predicate Fair(l: Life, m: Move) {
    match m
    case Hear(id, data) => (var d := DecodeSnapshot(data); d.Message? ==> Honest(id, d.value.payload))
    case Play(a) => !a.ApplyIt? && !a.DropIt? && Allowed(l.r, l.scene, a) && (a.BindIt? ==> Bindable(l, a.id))
    case Update(_, taken, _) => taken.Some? ==> Honest(SERVER_ID, taken.value.payload)
  }

  ghost predicate Bindable(l: Life, id: nat) { OwnerOf(id) == l.ps.self || !Gone(l.told, OwnerOf(id)) }

  function Moved(l: Life, m: Move): Life {
    match m
    case Hear(id, data) =>
      if id in l.ps.peers then l.(ps := l.ps.(peers := l.ps.peers[id := l.ps.peers[id].(latest := Some(data))])) else l
    case Play(a) => var (r, scene) := Act(l.r, l.scene, a); l.(r := r, scene := scene)
    case Update(events, taken, order) =>
      var (r1, s1) := DropAllLeft(l.ps.self, l.r, l.scene, events);
      var (r2, s2) := FromServer(r1, s1, taken);
      var (r3, s3) := TakeAll(r2, s2, OnEvents(l.ps, events).peers, order);
      Life(Emptied(OnEvents(l.ps, events)), r3, s3, l.told + events)
  }

  ghost predicate Run(l: Life, moves: seq<Move>)
    decreases |moves|
  {
    moves != [] ==> Fair(l, moves[0]) && Run(Moved(l, moves[0]), moves[1..])
  }

  function After(l: Life, moves: seq<Move>): Life
    decreases |moves|
  {
    if moves == [] then l else After(Moved(l, moves[0]), moves[1..])
  }

  // ---- the invariant ----------------------------------------------------------------------------------

  ghost predicate LifeOk(l: Life) {
    && ReplicatorOk(l.r, l.scene) && l.r.self == l.ps.self != SERVER_ID
    && l.ps.roster == Fold(l.told) && InStepWithRoster(l.ps) && HonestPeers(l.ps.peers)
    && NothingOfGone(l.ps.self, l.r, l.told) && Apart(l.r, {SERVER_ID})
  }

  /** Nobody joins twice, and the server itself is not reported: roster replication guarantees both. */
  ghost predicate Plausible(told: seq<RosterEvent>) {
    JoinedOnce(told) && forall e <- told :: e.client.id != SERVER_ID
  }

  /** Binding keeps those reported gone without entities if and only if the id is bindable. */
  lemma BindExactly(l: Life, id: nat, e: nat)
    requires LifeOk(l) && e < l.scene.nextId
    ensures NothingOfGone(l.ps.self, Bind(l.r, id, e), l.told) <==> Bindable(l, id)
  {
    BindKeeps(l.r, l.scene, id, e);
    var r' := Bind(l.r, id, e);
    if Bindable(l, id) {
      forall k: nat | Gone(l.told, k) && k != l.ps.self ensures OwnsNothing(r', k) {
        assert OwnsNothing(l.r, k);
      }
    } else {
      assert id in r'.entities && !OwnsNothing(r', OwnerOf(id));
    }
  }

  lemma PlayKeeps(l: Life, a: Action)
    requires LifeOk(l) && Fair(l, Play(a))
    ensures LifeOk(Moved(l, Play(a)))
  {
    ActKeeps(l.r, l.scene, a);
    var r' := Act(l.r, l.scene, a).0;
    if a.BindIt? {
      BindExactly(l, a.id, a.entity);
    } else {
      if a.TrackIt? && a.entity !in l.r.netIds {
        TrackFresh(l.r, l.scene, a.entity);
      }
      forall k: nat | Gone(l.told, k) && k != l.ps.self ensures OwnsNothing(r', k) {
        assert OwnsNothing(l.r, k);
      }
    }
  }

  /** A new listener starts with nothing heard. */
  lemma {:induction false} EventsKeepHonest(ps: PeerState, events: seq<RosterEvent>)
    requires HonestPeers(ps.peers)
    ensures HonestPeers(OnEvents(ps, events).peers)
    decreases |events|
  {
    if events != [] {
      EventsKeepHonest(ps, events[..|events| - 1]);
    }
  }

  lemma {:induction false} TakingSeparates(r: ReplicatorState, s: SceneState, peers: map<nat, PeerSlot>, order: seq<nat>)
    requires ReplicatorOk(r, s) && Apart(r, {SERVER_ID}) && HonestPeers(peers) && SERVER_ID !in peers
    ensures var (r', s') := TakeAll(r, s, peers, order); ReplicatorOk(r', s') && Apart(r', {SERVER_ID})
    decreases |order|
  {
    if order != [] {
      var front, id := order[..|order| - 1], order[|order| - 1];
      TakingSeparates(r, s, peers, front);
      if id in peers {
        TakeParts(TakeAll(r, s, peers, front).0, TakeAll(r, s, peers, front).1, peers[id], id);
      }
    }
  }

  lemma UpdateSeparates(l: Life, m: Move)
    requires LifeOk(l) && Fair(l, m) && m.Update? && Plausible(l.told + m.events)
    ensures Apart(Moved(l, m).r, {SERVER_ID})
  {
    assert forall e <- m.events :: e in l.told + m.events;
    DropAllParts(l.ps.self, l.r, l.scene, m.events);
    var (r1, s1) := DropAllLeft(l.ps.self, l.r, l.scene, m.events);
    ServerParts(r1, s1, m.taken);
    var (r2, s2) := FromServer(r1, s1, m.taken);
    EventsKeepHonest(l.ps, m.events);
    PlausibleBefore(l.told, l.told + m.events);
    NoServerPeer(l);
    StayersKeepLatest(l.ps, m.events);
    TakingSeparates(r2, s2, OnEvents(l.ps, m.events).peers, m.order);
  }

  lemma UpdateKeeps(l: Life, m: Move)
    requires LifeOk(l) && Fair(l, m) && m.Update? && Plausible(Moved(l, m).told)
    ensures LifeOk(Moved(l, m))
  {
    EventsKeepHonest(l.ps, m.events);
    UpdateSeparates(l, m);
    UpdatesKeep(l.ps, l.r, l.scene, l.told, m.events, m.taken, m.order);
  }

  lemma MoveKeeps(l: Life, m: Move)
    requires LifeOk(l) && Fair(l, m) && Plausible(Moved(l, m).told)
    ensures LifeOk(Moved(l, m))
  {
    match m
    case Hear(id, data) =>
    case Play(a) => PlayKeeps(l, a);
    case Update(_, _, _) => UpdateKeeps(l, m);
  }

  // ---- every life -------------------------------------------------------------------------------------

  lemma {:induction false} ToldGrows(l: Life, moves: seq<Move>)
    ensures l.told <= After(l, moves).told
    decreases |moves|
  {
    if moves != [] {
      ToldGrows(Moved(l, moves[0]), moves[1..]);
    }
  }

  lemma PlausibleBefore(told: seq<RosterEvent>, later: seq<RosterEvent>)
    requires told <= later && Plausible(later)
    ensures Plausible(told)
  {
    assert forall i :: 0 <= i < |told| ==> told[i] == later[i] && later[i] in later;
  }

  lemma {:induction false} RunKeeps(l: Life, moves: seq<Move>)
    requires LifeOk(l) && Run(l, moves) && Plausible(After(l, moves).told)
    ensures LifeOk(After(l, moves))
    decreases |moves|
  {
    if moves != [] {
      var next := Moved(l, moves[0]);
      ToldGrows(next, moves[1..]);
      PlausibleBefore(next.told, After(l, moves).told);
      MoveKeeps(l, moves[0]);
      RunKeeps(next, moves[1..]);
    }
  }

  lemma BegunOk(self: nat, scene: SceneState)
    requires SceneOk(scene) && self != SERVER_ID
    ensures LifeOk(Begun(self, scene))
  {
    assert Fold([]) == map[];
  }

  /** At every point of every life: the roster is the fold of what was told, the peers are exactly its others
      with an endpoint, and no entity is left of a peer that was reported gone. */
  lemma EveryPeerLife(self: nat, scene: SceneState, moves: seq<Move>)
    requires SceneOk(scene) && self != SERVER_ID
    requires Run(Begun(self, scene), moves) && Plausible(After(Begun(self, scene), moves).told)
    ensures var l := After(Begun(self, scene), moves);
      && l.ps.roster == Fold(l.told) && InStepWithRoster(l.ps) && ReplicatorOk(l.r, l.scene)
      && (forall id: nat :: Gone(l.told, id) && id != self ==>
            OwnsNothing(l.r, id) && forall k <- View(l.r, l.scene) :: OwnerOf(k) != id)
  {
    BegunOk(self, scene);
    RunKeeps(Begun(self, scene), moves);
    SelfStays(Begun(self, scene), moves);
  }

  /** And at every update of every life, whatever order the peers are visited in: nothing is left of who left,
      the server's snapshot is applied, a peer's part becomes what its newest publication makes of it if there
      is one that decodes, and what this process owns is as it was. */
  lemma EveryUpdateShows(self: nat, scene: SceneState, moves: seq<Move>, m: Move, k: nat)
    requires SceneOk(scene) && self != SERVER_ID
    requires Run(Begun(self, scene), moves)
    requires var l := After(Begun(self, scene), moves);
      && m.Update? && Fair(l, m) && Plausible(l.told + m.events) && Visits(m.order, OnEvents(l.ps, m.events).peers.Keys)
    ensures var l := After(Begun(self, scene), moves);
      && Part(k, View(Moved(l, m).r, Moved(l, m).scene)) == Shown(l.ps, l.r, l.scene, m.events, m.taken, k)
      && Part(self, View(Moved(l, m).r, Moved(l, m).scene)) == Part(self, View(l.r, l.scene))
  {
    var l := After(Begun(self, scene), moves);
    PlausibleBefore(l.told, l.told + m.events);
    BegunOk(self, scene);
    RunKeeps(Begun(self, scene), moves);
    SelfStays(Begun(self, scene), moves);
    NoServerPeer(l);
    assert forall e <- m.events :: e in l.told + m.events;
    UpdateParts(l.ps, l.r, l.scene, m.events, m.taken, m.order, k);
    UpdateParts(l.ps, l.r, l.scene, m.events, m.taken, m.order, self);
    OwnStays(l.ps, l.r, l.scene, m.events, m.taken);
  }

  lemma NoServerPeer(l: Life)
    requires LifeOk(l) && Plausible(l.told)
    ensures SERVER_ID !in l.ps.peers && l.ps.self !in l.ps.peers
  {
    if SERVER_ID in l.ps.roster {
      FoldFrom(l.told, SERVER_ID);
    }
  }

  lemma {:induction false} OwnId(ps: PeerState, events: seq<RosterEvent>)
    ensures OnEvents(ps, events).self == ps.self
    decreases |events|
  {
    if events != [] {
      OwnId(ps, events[..|events| - 1]);
    }
  }

  lemma {:induction false} SelfStays(l: Life, moves: seq<Move>)
    ensures After(l, moves).ps.self == l.ps.self
    decreases |moves|
  {
    if moves != [] {
      if moves[0].Update? {
        OwnId(l.ps, moves[0].events);
      }
      SelfStays(Moved(l, moves[0]), moves[1..]);
    }
  }
}
