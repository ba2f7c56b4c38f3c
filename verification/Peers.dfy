/** A peer session: the set of peers it listens to follows the roster, and peers that left leave no entities. */
module Peers {
  import opened Options
  import opened Wire
  import opened Protocol
  import opened Codec
  import opened Scenes
  import opened Replication
  import opened Replicators
  import opened Ownership
  import opened Parts
  import opened Roster

  /** A peer being listened to, and the newest thing it published that nobody has taken. */
  datatype PeerSlot = PeerSlot(endpoint: Bytes, latest: Option<Bytes>)

  datatype PeerState = PeerState(self: nat, peers: map<nat, PeerSlot>, roster: map<nat, ClientInfo>)

  function Connect(ps: PeerState, id: nat, endpoint: Bytes): PeerState {
    if endpoint == [] || id in ps.peers then ps else ps.(peers := ps.peers[id := PeerSlot(endpoint, None)])
  }

  /** One roster event: the roster and the peers, and whether the peer's entities are dropped. */
  function OnEvent(ps: PeerState, e: RosterEvent): PeerState {
    var id := e.client.id;
    var ps1 := ps.(roster := Follow(ps.roster, e));
    if id == ps.self then ps1
    else if e.change == JOINED then Connect(ps1, id, e.client.peerEndpoint)
    else ps1.(peers := ps1.peers - {id})
  }

  function OnEvents(ps: PeerState, events: seq<RosterEvent>): PeerState {
    if events == [] then ps else OnEvent(OnEvents(ps, events[..|events| - 1]), events[|events| - 1])
  }

  function DropLeft(self: nat, r: ReplicatorState, s: SceneState, e: RosterEvent): (ReplicatorState, SceneState) {
    if e.change == JOINED || e.client.id == self then (r, s) else DropOwner(r, s, e.client.id)
  }

  function DropAllLeft(self: nat, r: ReplicatorState, s: SceneState, events: seq<RosterEvent>): (ReplicatorState, SceneState) {
    if events == [] then (r, s) else
    var (r1, s1) := DropAllLeft(self, r, s, events[..|events| - 1]);
    DropLeft(self, r1, s1, events[|events| - 1])
  }

  function TakeFrom(r: ReplicatorState, s: SceneState, slot: PeerSlot, id: nat): (ReplicatorState, SceneState) {
    if slot.latest.None? then (r, s) else
    match DecodeSnapshot(slot.latest.value)
    case Message(state) => ApplyPayload(r, s, state.payload, id)
    case Malformed => (r, s)
  }

  /** What the peers in order published, applied one after the other. */
  function TakeAll(r: ReplicatorState, s: SceneState, peers: map<nat, PeerSlot>, order: seq<nat>): (ReplicatorState, SceneState) {
    if order == [] then (r, s) else
    var (r1, s1) := TakeAll(r, s, peers, order[..|order| - 1]);
    var id := order[|order| - 1];
    if id in peers then TakeFrom(r1, s1, peers[id], id) else (r1, s1)
  }

  lemma TakeOneMore(r: ReplicatorState, s: SceneState, peers: map<nat, PeerSlot>, order: seq<nat>, id: nat)
    requires id in peers
    ensures var (r1, s1) := TakeAll(r, s, peers, order);
      TakeAll(r, s, peers, order + [id]) == TakeFrom(r1, s1, peers[id], id)
  {
    assert (order + [id])[..|order|] == order;
  }

  /** Every slot but those in todo has been emptied. */
  ghost predicate EmptiedBut(before: map<nat, PeerSlot>, peers: map<nat, PeerSlot>, todo: set<nat>) {
    && peers.Keys == before.Keys
    && forall id <- before :: peers[id] == if id in todo then before[id] else before[id].(latest := None)
  }

  /** Each once, in some order. */
  ghost predicate Visits(order: seq<nat>, ids: set<nat>) {
    (forall id :: id in order <==> id in ids) && (forall i, j :: 0 <= i < j < |order| ==> order[i] != order[j])
  }

  lemma VisitNext(order: seq<nat>, ids: set<nat>, todo: set<nat>, id: nat)
    requires Visits(order, ids - todo) && id in todo && todo <= ids
    ensures Visits(order + [id], ids - (todo - {id}))
  {
  }

  function Emptied(ps: PeerState): PeerState {
    ps.(peers := map id | id in ps.peers :: ps.peers[id].(latest := None))
  }

  function FromServer(r: ReplicatorState, s: SceneState, taken: Option<ReceivedState>): (ReplicatorState, SceneState) {
    if taken.None? then (r, s) else ApplyPayload(r, s, taken.value.payload, SERVER_ID)
  }

  // ---- what is shown of each owner --------------------------------------------------------------------

  ghost predicate Leaves(events: seq<RosterEvent>, id: nat) { exists e <- events :: e.change != JOINED && e.client.id == id }

  /** Peers publish only what they own, and the server's snapshot carries only what the server owns. */
  ghost predicate HonestPeers(peers: map<nat, PeerSlot>) { forall id <- peers :: HonestSlot(id, peers[id]) }

  ghost predicate HonestSlot(id: nat, slot: PeerSlot) {
    slot.latest.Some? ==> (var d := DecodeSnapshot(slot.latest.value); d.Message? ==> Honest(id, d.value.payload))
  }

  /** Every peer publishes what it owns, and neither the server nor this process is a peer. The server's snapshots
      may carry anything. */
  ghost predicate Orderly(ps: PeerState, r: ReplicatorState, events: seq<RosterEvent>) {
    && Apart(r, {SERVER_ID}) && r.self == ps.self != SERVER_ID && ps.self !in ps.peers && SERVER_ID !in ps.peers
    && HonestPeers(ps.peers) && forall e <- events :: e.client.id != SERVER_ID
  }

  /** What the server's snapshot makes of a part. */
  function Served(k: nat, part: map<nat, EntityView>, listed: set<nat>, self: nat, taken: Option<ReceivedState>): map<nat, EntityView> {
    if taken.Some? then PartAfter(k, part, listed, self, taken.value.payload) else part
  }

  /** What a peer's newest publication makes of its part. */
  ghost function Taken(id: nat, slot: PeerSlot, part: map<nat, EntityView>, listed: set<nat>, self: nat): map<nat, EntityView> {
    if slot.latest.Some? && DecodeSnapshot(slot.latest.value).Message?
    then PartAfter(id, part, listed, self, DecodeSnapshot(slot.latest.value).value.payload)
    else part
  }

  /** The part of owner k after an update: nothing of those who left; then what the server's snapshot makes of it;
      and of a peer that stayed, what its newest publication makes of that, if there is one that decodes. */
  ghost function Shown(ps: PeerState, r: ReplicatorState, s: SceneState, events: seq<RosterEvent>, taken: Option<ReceivedState>, k: nat)
    : map<nat, EntityView>
  {
    var left := Leaves(events, k) && k != ps.self;
    var served := Served(k, if left then map[] else Part(k, View(r, s)), Previous(r, SERVER_ID), ps.self, taken);
    if k in ps.peers && !left then Taken(k, ps.peers[k], served, Previous(r, k), ps.self) else served
  }

  lemma {:induction false} DropAllParts(self: nat, r: ReplicatorState, s: SceneState, events: seq<RosterEvent>)
    requires ReplicatorOk(r, s) && Apart(r, {SERVER_ID}) && r.self == self && forall e <- events :: e.client.id != SERVER_ID
    ensures var (r', s') := DropAllLeft(self, r, s, events);
      && ReplicatorOk(r', s') && Apart(r', {SERVER_ID}) && r'.self == self
      && (forall k: nat :: Part(k, View(r', s')) == (if Leaves(events, k) && k != self then map[] else Part(k, View(r, s))))
      && (forall k: nat :: k != SERVER_ID ==> Previous(r', k) == (if Leaves(events, k) && k != self then {} else Previous(r, k)))
      && (forall id: nat :: !Leaves(events, OwnerOf(id)) || OwnerOf(id) == self ==>
            (id in Previous(r', SERVER_ID) <==> id in Previous(r, SERVER_ID)))
    decreases |events|
  {
    if events != [] {
      var front, e := events[..|events| - 1], events[|events| - 1];
      var (r1, s1) := DropAllLeft(self, r, s, front);
      DropAllParts(self, r, s, front);
      assert forall k: nat :: Leaves(events, k) <==> Leaves(front, k) || (e.change != JOINED && e.client.id == k) by {
        assert events == front + [e];
      }
      if e.change != JOINED && e.client.id != self {
        DropParts(r1, s1, e.client.id, {SERVER_ID});
      }
    }
  }

  /** A peer that stayed keeps what was heard of it, and a new one starts with nothing heard. */
  lemma {:induction false} StayersKeepLatest(ps: PeerState, events: seq<RosterEvent>)
    requires ps.self !in ps.peers
    ensures var ps' := OnEvents(ps, events);
      && ps'.self == ps.self && ps.self !in ps'.peers
      && (forall id <- ps'.peers ::
            ps'.peers[id].latest == if id in ps.peers && !Leaves(events, id) then ps.peers[id].latest else None)
      && (forall id <- ps.peers :: !Leaves(events, id) ==> id in ps'.peers)
      && (forall id <- ps'.peers :: id in ps.peers || exists e <- events :: e.client.id == id)
    decreases |events|
  {
    if events != [] {
      var front, e := events[..|events| - 1], events[|events| - 1];
      StayersKeepLatest(ps, front);
      assert events == front + [e];
      assert forall k: nat :: Leaves(events, k) <==> Leaves(front, k) || (e.change != JOINED && e.client.id == k);
    }
  }

  /** Taking from one peer changes its part alone. */
  lemma TakeParts(r: ReplicatorState, s: SceneState, slot: PeerSlot, id: nat)
    requires ReplicatorOk(r, s) && Apart(r, {SERVER_ID}) && id != SERVER_ID && HonestSlot(id, slot)
    ensures var (r', s') := TakeFrom(r, s, slot, id);
      && ReplicatorOk(r', s') && Apart(r', {SERVER_ID}) && r'.self == r.self
      && (forall k: nat :: k != id ==> Part(k, View(r', s')) == Part(k, View(r, s)) && Previous(r', k) == Previous(r, k))
      && Part(id, View(r', s')) == Taken(id, slot, Part(id, View(r, s)), Previous(r, id), r.self)
  {
    if slot.latest.Some? && DecodeSnapshot(slot.latest.value).Message? {
      PayloadParts(r, s, DecodeSnapshot(slot.latest.value).value.payload, id, {SERVER_ID});
    }
  }

  lemma {:induction false} TakeAllParts(r: ReplicatorState, s: SceneState, peers: map<nat, PeerSlot>, order: seq<nat>, k: nat)
    requires ReplicatorOk(r, s) && Apart(r, {SERVER_ID}) && HonestPeers(peers) && SERVER_ID !in peers
    requires (forall id <- order :: id in peers) && (forall i, j :: 0 <= i < j < |order| ==> order[i] != order[j])
    ensures var (r', s') := TakeAll(r, s, peers, order);
      && ReplicatorOk(r', s') && Apart(r', {SERVER_ID}) && r'.self == r.self
      && (k !in order ==> Part(k, View(r', s')) == Part(k, View(r, s)) && Previous(r', k) == Previous(r, k))
      && (k in order ==> Part(k, View(r', s')) == Taken(k, peers[k], Part(k, View(r, s)), Previous(r, k), r.self))
    decreases |order|
  {
    if order != [] {
      var front, id := order[..|order| - 1], order[|order| - 1];
      var (r1, s1) := TakeAll(r, s, peers, front);
      TakeAllParts(r, s, peers, front, k);
      assert order == front + [id] && id !in front;
      TakeParts(r1, s1, peers[id], id);
    }
  }

  lemma ServerParts(r: ReplicatorState, s: SceneState, taken: Option<ReceivedState>)
    requires ReplicatorOk(r, s) && Apart(r, {SERVER_ID})
    ensures var (r', s') := FromServer(r, s, taken);
      && ReplicatorOk(r', s') && Apart(r', {SERVER_ID}) && r'.self == r.self
      && (forall k: nat :: Part(k, View(r', s')) == Served(k, Part(k, View(r, s)), Previous(r, SERVER_ID), r.self, taken))
      && (forall k: nat :: k != SERVER_ID ==> Previous(r', k) == Previous(r, k))
  {
    if taken.Some? {
      HubParts(r, s, taken.value.payload, SERVER_ID, {SERVER_ID});
    }
  }

  lemma StillHonest(ps: PeerState, events: seq<RosterEvent>)
    requires HonestPeers(ps.peers) && ps.self !in ps.peers
    ensures HonestPeers(OnEvents(ps, events).peers)
  {
    StayersKeepLatest(ps, events);
  }

  /** Up to the peers: those who left are gone, and the server's snapshot is applied. */
  lemma BeforePeers(ps: PeerState, r: ReplicatorState, s: SceneState, events: seq<RosterEvent>, taken: Option<ReceivedState>, k: nat)
    requires ReplicatorOk(r, s) && Orderly(ps, r, events)
    ensures var (r1, s1) := DropAllLeft(ps.self, r, s, events);
      var (r2, s2) := FromServer(r1, s1, taken);
      var left := Leaves(events, k) && k != ps.self;
      && ReplicatorOk(r2, s2) && Apart(r2, {SERVER_ID}) && r2.self == ps.self
      && Part(k, View(r2, s2)) == Served(k, if left then map[] else Part(k, View(r, s)), Previous(r, SERVER_ID), ps.self, taken)
      && (k != SERVER_ID ==> Previous(r2, k) == if left then {} else Previous(r, k))
  {
    DropAllParts(ps.self, r, s, events);
    var (r1, s1) := DropAllLeft(ps.self, r, s, events);
    ServerParts(r1, s1, taken);
    if taken.Some? {
      SameListed(k, Part(k, View(r1, s1)), Previous(r1, SERVER_ID), Previous(r, SERVER_ID), ps.self, taken.value.payload);
    }
  }

  lemma FromPeers(ps: PeerState, events: seq<RosterEvent>, r: ReplicatorState, s: SceneState, order: seq<nat>, k: nat)
    requires ReplicatorOk(r, s) && Apart(r, {SERVER_ID}) && r.self == ps.self && HonestPeers(ps.peers) && ps.self !in ps.peers
    requires SERVER_ID !in ps.peers && forall e <- events :: e.client.id != SERVER_ID
    requires Visits(order, OnEvents(ps, events).peers.Keys)
    ensures var (r', s') := TakeAll(r, s, OnEvents(ps, events).peers, order);
      && Apart(r', {SERVER_ID})
      && Part(k, View(r', s')) ==
           if k in ps.peers && !Leaves(events, k) then Taken(k, ps.peers[k], Part(k, View(r, s)), Previous(r, k), ps.self)
           else Part(k, View(r, s))
  {
    StillHonest(ps, events);
    StayersKeepLatest(ps, events);
    TakeAllParts(r, s, OnEvents(ps, events).peers, order, k);
  }

  /** What an update shows, owner by owner, whatever order the peers are visited in. */
  lemma UpdateParts(ps: PeerState, r: ReplicatorState, s: SceneState, events: seq<RosterEvent>, taken: Option<ReceivedState>,
                    order: seq<nat>, k: nat)
    requires ReplicatorOk(r, s) && Orderly(ps, r, events) && Visits(order, OnEvents(ps, events).peers.Keys)
    ensures var (r1, s1) := DropAllLeft(ps.self, r, s, events);
      var (r2, s2) := FromServer(r1, s1, taken);
      var (r', s') := TakeAll(r2, s2, OnEvents(ps, events).peers, order);
      Part(k, View(r', s')) == Shown(ps, r, s, events, taken, k) && Apart(r', {SERVER_ID})
  {
    BeforePeers(ps, r, s, events, taken, k);
    var (r1, s1) := DropAllLeft(ps.self, r, s, events);
    var (r2, s2) := FromServer(r1, s1, taken);
    FromPeers(ps, events, r2, s2, order, k);
  }

  lemma AllParts(ps: PeerState, r: ReplicatorState, s: SceneState, events: seq<RosterEvent>, taken: Option<ReceivedState>,
                 order: seq<nat>, r': ReplicatorState, s': SceneState)
    requires ReplicatorOk(r, s) && Visits(order, OnEvents(ps, events).peers.Keys)
    requires var (r1, s1) := DropAllLeft(ps.self, r, s, events);
      var (r2, s2) := FromServer(r1, s1, taken);
      (r', s') == TakeAll(r2, s2, OnEvents(ps, events).peers, order)
    ensures Orderly(ps, r, events) ==> forall k: nat :: Part(k, View(r', s')) == Shown(ps, r, s, events, taken, k)
  {
    if Orderly(ps, r, events) {
      forall k: nat ensures Part(k, View(r', s')) == Shown(ps, r, s, events, taken, k) {
        UpdateParts(ps, r, s, events, taken, order, k);
      }
    }
  }

  /** Whatever the server and the peers say, what this process owns stays as it was. */
  lemma OwnStays(ps: PeerState, r: ReplicatorState, s: SceneState, events: seq<RosterEvent>, taken: Option<ReceivedState>)
    requires ReplicatorOk(r, s) && r.self == ps.self && ps.self !in ps.peers
    ensures Shown(ps, r, s, events, taken, ps.self) == Part(ps.self, View(r, s))
  {
    if taken.Some? {
      OwnPartStays(r, Part(ps.self, View(r, s)), SERVER_ID, taken.value.payload);
    }
  }

  // ---- the class ------------------------------------------------------------------------------------

  class PeerSession {
    const self: nat
    const replicator: SceneReplicator
    var peers: map<nat, PeerSlot>
    var roster: map<nat, ClientInfo>
    var left: bool

    ghost function State(): PeerState
      reads this
    {
      PeerState(self, peers, roster)
    }

    constructor (self: nat, replicator: SceneReplicator)
      ensures State() == PeerState(self, map[], map[]) && !left && this.replicator == replicator
    {
      this.self, this.replicator := self, replicator;
      peers, roster, left := map[], map[], false;
    }

    method ConnectPeer(id: nat, endpoint: Bytes)
      modifies this
      ensures State() == Connect(old(State()), id, endpoint) && left == old(left)
      ensures State() == if endpoint == [] || id in old(peers) then old(State())
                         else old(State()).(peers := old(peers)[id := PeerSlot(endpoint, None)])
    {
      if endpoint == [] || id in peers {
        return;
      }
      peers := peers[id := PeerSlot(endpoint, None)];
    }

    method DisconnectPeer(id: nat)
      modifies this
      ensures State() == old(State()).(peers := old(peers) - {id}) && left == old(left)
    {
      if id in peers {
        peers := peers - {id};
      } else {
        assert peers - {id} == peers;
      }
    }

    /** The listener thread of a peer. */
    method Listen(id: nat, data: Bytes)
      modifies `peers
      ensures peers == if id in old(peers) then old(peers)[id := old(peers)[id].(latest := Some(data))] else old(peers)
    {
      if id in peers {
        peers := peers[id := peers[id].(latest := Some(data))];
      }
    }

    method Follows(scene: Scene, e: RosterEvent)
      requires ReplicatorOk(replicator.State(), scene.View())
      modifies this, replicator, scene
      ensures ReplicatorOk(replicator.State(), scene.View())
      ensures State() == OnEvent(old(State()), e) && left == old(left)
      ensures (replicator.State(), scene.View()) == DropLeft(self, old(replicator.State()), old(scene.View()), e)
    {
      var id := e.client.id;
      if e.change == JOINED {
        roster := roster[id := e.client];
      } else {
        roster := roster - {id};
      }
      if id == self {
        return;
      }
      if e.change == JOINED {
        ConnectPeer(id, e.client.peerEndpoint);
      } else {
        DisconnectPeer(id);
        replicator.Drop(scene, id);
      }
    }

    /** applyUpdates, given what the session drained and took. The peers are visited in some order. */
    method ApplyUpdates(scene: Scene, events: seq<RosterEvent>, taken: Option<ReceivedState>)
      requires ReplicatorOk(replicator.State(), scene.View())
      modifies this, replicator, scene
      ensures ReplicatorOk(replicator.State(), scene.View())
      ensures State() == Emptied(OnEvents(old(State()), events)) && left == old(left)
      ensures exists order: seq<nat> ::
        Visits(order, peers.Keys)
        && var (r1, s1) := DropAllLeft(self, old(replicator.State()), old(scene.View()), events);
           var (r2, s2) := FromServer(r1, s1, taken);
           (replicator.State(), scene.View()) == TakeAll(r2, s2, OnEvents(old(State()), events).peers, order)
      ensures Orderly(old(State()), old(replicator.State()), events) ==> forall k: nat ::
        Part(k, View(replicator.State(), scene.View())) == Shown(old(State()), old(replicator.State()), old(scene.View()), events, taken, k)
    {
      ghost var ps, r, s := State(), replicator.State(), scene.View();
      FollowAll(scene, events);
      if taken.Some? {
        var ok := replicator.ApplySnapshot(scene, taken.value.payload, None, SERVER_ID);
      }
      ghost var order := ApplyPeers(scene);
      AllParts(ps, r, s, events, taken, order, replicator.State(), scene.View());
    }

    method FollowAll(scene: Scene, events: seq<RosterEvent>)
      requires ReplicatorOk(replicator.State(), scene.View())
      modifies this, replicator, scene
      ensures ReplicatorOk(replicator.State(), scene.View())
      ensures State() == OnEvents(old(State()), events) && left == old(left)
      ensures (replicator.State(), scene.View()) == DropAllLeft(self, old(replicator.State()), old(scene.View()), events)
    {
      var i := 0;
      while i < |events|
        invariant 0 <= i <= |events| && ReplicatorOk(replicator.State(), scene.View())
        invariant State() == OnEvents(old(State()), events[..i]) && left == old(left)
        invariant (replicator.State(), scene.View()) == DropAllLeft(self, old(replicator.State()), old(scene.View()), events[..i])
      {
        assert events[..i + 1][..i] == events[..i];
        Follows(scene, events[i]);
        i := i + 1;
      }
      assert events[..i] == events;
    }

    method ApplyPeers(scene: Scene) returns (ghost order: seq<nat>)
      requires ReplicatorOk(replicator.State(), scene.View())
      modifies this, replicator, scene
      ensures ReplicatorOk(replicator.State(), scene.View())
      ensures State() == Emptied(old(State())) && left == old(left)
      ensures Visits(order, peers.Keys)
      ensures (replicator.State(), scene.View()) == TakeAll(old(replicator.State()), old(scene.View()), old(peers), order)
    {
      order := [];
      var todo := peers.Keys;
      while todo != {}
        invariant todo <= peers.Keys == old(peers).Keys && roster == old(roster) && left == old(left)
        invariant ReplicatorOk(replicator.State(), scene.View())
        invariant EmptiedBut(old(peers), peers, todo) && Visits(order, peers.Keys - todo)
        invariant (replicator.State(), scene.View()) == TakeAll(old(replicator.State()), old(scene.View()), old(peers), order)
        decreases |todo|
      {
        var id :| id in todo;
        TakeOneMore(old(replicator.State()), old(scene.View()), old(peers), order, id);
        ApplyPeer(scene, id);
        VisitNext(order, peers.Keys, todo, id);
        order := order + [id];
        todo := todo - {id};
      }
      assert peers == Emptied(old(State())).peers;
    }

    method ApplyPeer(scene: Scene, id: nat)
      requires ReplicatorOk(replicator.State(), scene.View()) && id in peers
      modifies `peers, replicator, scene
      ensures ReplicatorOk(replicator.State(), scene.View())
      ensures peers == old(peers)[id := old(peers)[id].(latest := None)]
      ensures (replicator.State(), scene.View()) == TakeFrom(old(replicator.State()), old(scene.View()), old(peers)[id], id)
    {
      var data := peers[id].latest;
      peers := peers[id := peers[id].(latest := None)];
      if data.None? {
        return;
      }
      var ok, state := Codec.ReadSnapshot(data.value);
      if ok {
        ok := replicator.ApplySnapshot(scene, state.payload, None, id);
      }
    }

    /** leave: every peer is disconnected, once. */
    method Leave()
      modifies this
      ensures left && (if old(left) then State() == old(State()) else State() == old(State()).(peers := map[]))
    {
      if left {
        return;
      }
      left := true;
      while peers != map[]
        invariant left && roster == old(roster)
        decreases |peers|
      {
        assert peers.Keys != {};
        var id :| id in peers;
        peers := peers - {id};
      }
    }
  }

  // ---- the peers are the roster ---------------------------------------------------------------------

  /** Exactly the others in the roster that advertise an endpoint, at the endpoints they advertise. */
  ghost predicate InStepWithRoster(ps: PeerState) {
    && (forall id :: id in ps.peers <==> id in ps.roster && id != ps.self && ps.roster[id].peerEndpoint != [])
    && (forall id <- ps.peers :: ps.peers[id].endpoint == ps.roster[id].peerEndpoint)
  }

  /** As long as nobody joins twice, which roster replication guarantees, the roster is the fold of all events
      told so far and the peers are exactly in step with it. */
  lemma {:induction false} PeersFollowRoster(ps: PeerState, before: seq<RosterEvent>, events: seq<RosterEvent>)
    requires ps.roster == Fold(before) && InStepWithRoster(ps) && JoinedOnce(before + events)
    ensures var ps' := OnEvents(ps, events);
      ps'.self == ps.self && ps'.roster == Fold(before + events) && InStepWithRoster(ps')
    decreases |events|
  {
    if events == [] {
      assert before + events == before;
    } else {
      var k := |events| - 1;
      var told := before + events[..k];
      assert before + events == told + [events[k]];
      assert forall i :: 0 <= i < |told| ==> told[i] == (before + events)[i];
      PeersFollowRoster(ps, before, events[..k]);
      FollowsOne(OnEvents(ps, events[..k]), told, events[k]);
    }
  }

  lemma FollowsOne(ps: PeerState, told: seq<RosterEvent>, e: RosterEvent)
    requires ps.roster == Fold(told) && InStepWithRoster(ps) && JoinedOnce(told + [e])
    ensures var ps' := OnEvent(ps, e);
      ps'.self == ps.self && ps'.roster == Fold(told + [e]) && InStepWithRoster(ps')
  {
    FoldOne(told, e);
    NewlyJoined(told, e);
  }

  lemma NewlyJoined(told: seq<RosterEvent>, e: RosterEvent)
    requires JoinedOnce(told + [e])
    ensures e.change == JOINED ==> e.client.id !in Fold(told)
  {
    var all := told + [e];
    assert all[|told|] == e && forall k :: 0 <= k < |told| ==> all[k] == told[k];
    if e.change == JOINED && e.client.id in Fold(told) {
      FoldFrom(told, e.client.id);
    }
  }

  // ---- nothing of those who left --------------------------------------------------------------------

  /** Reported gone and not reported back. */
  ghost predicate Gone(told: seq<RosterEvent>, id: nat) {
    id !in Fold(told) && exists e <- told :: e.change != JOINED && e.client.id == id
  }

  ghost predicate NothingOfGone(self: nat, r: ReplicatorState, told: seq<RosterEvent>) {
    forall id: nat :: Gone(told, id) && id != self ==> OwnsNothing(r, id)
  }

  lemma {:induction false} LeftIsDropped(self: nat, r: ReplicatorState, s: SceneState, told: seq<RosterEvent>, events: seq<RosterEvent>)
    requires ReplicatorOk(r, s) && r.self == self && NothingOfGone(self, r, told)
    ensures var (r', s') := DropAllLeft(self, r, s, events);
      ReplicatorOk(r', s') && r'.self == self && NothingOfGone(self, r', told + events)
    decreases |events|
  {
    if events == [] {
      assert told + events == told;
    } else {
      var k := |events| - 1;
      var e := events[k];
      LeftIsDropped(self, r, s, told, events[..k]);
      var (r1, s1) := DropAllLeft(self, r, s, events[..k]);
      var before := told + events[..k];
      assert told + events == before + [e];
      FoldOne(before, e);
      DropLeavesNothing(r1, s1, e.client.id);
      var (r', s') := DropLeft(self, r1, s1, e);
      forall id: nat | Gone(told + events, id) && id != self ensures OwnsNothing(r', id) {
        var x :| x in told + events && x.change != JOINED && x.client.id == id;
        assert x in before || x == e;
        assert id != e.client.id ==> Gone(before, id);
      }
    }
  }

  lemma {:induction false} TakingBringsOwn(r: ReplicatorState, s: SceneState, peers: map<nat, PeerSlot>, order: seq<nat>)
    requires ReplicatorOk(r, s) && HonestPeers(peers)
    ensures var (r', s') := TakeAll(r, s, peers, order);
      && ReplicatorOk(r', s') && r'.self == r.self
      && forall id: nat :: id !in peers && OwnsNothing(r, id) ==> OwnsNothing(r', id)
    decreases |order|
  {
    if order != [] {
      var k := |order| - 1;
      TakingBringsOwn(r, s, peers, order[..k]);
      var (r1, s1) := TakeAll(r, s, peers, order[..k]);
      var id := order[k];
      if id in peers && peers[id].latest.Some? && DecodeSnapshot(peers[id].latest.value).Message? {
        ApplyBringsOwn(r1, s1, DecodeSnapshot(peers[id].latest.value).value.payload, id);
      }
    }
  }

  /** After every applyUpdates: the peers are exactly the roster's others with an endpoint, and no entity of a
      peer that was reported gone is left. */
  lemma UpdatesKeep(ps: PeerState, r: ReplicatorState, s: SceneState, told: seq<RosterEvent>,
                    events: seq<RosterEvent>, taken: Option<ReceivedState>, order: seq<nat>)
    requires ReplicatorOk(r, s) && r.self == ps.self && ps.self != SERVER_ID
    requires ps.roster == Fold(told) && InStepWithRoster(ps) && JoinedOnce(told + events)
    requires NothingOfGone(ps.self, r, told)
    requires HonestPeers(OnEvents(ps, events).peers) && (taken.Some? ==> Honest(SERVER_ID, taken.value.payload))
    requires forall e <- told + events :: e.client.id != SERVER_ID
    ensures var ps' := Emptied(OnEvents(ps, events));
      var (r1, s1) := DropAllLeft(ps.self, r, s, events);
      var (r2, s2) := FromServer(r1, s1, taken);
      var (r', s') := TakeAll(r2, s2, OnEvents(ps, events).peers, order);
      && ReplicatorOk(r', s') && r'.self == ps.self && ps'.self == ps.self
      && ps'.roster == Fold(told + events) && InStepWithRoster(ps')
      && NothingOfGone(ps.self, r', told + events)
  {
    PeersFollowRoster(ps, told, events);
    LeftIsDropped(ps.self, r, s, told, events);
    var (r1, s1) := DropAllLeft(ps.self, r, s, events);
    if taken.Some? {
      ApplyBringsOwn(r1, s1, taken.value.payload, SERVER_ID);
    }
    var (r2, s2) := FromServer(r1, s1, taken);
    TakingBringsOwn(r2, s2, OnEvents(ps, events).peers, order);
    forall id: nat | Gone(told + events, id) && id != ps.self
      ensures OwnsNothing(TakeAll(r2, s2, OnEvents(ps, events).peers, order).0, id)
    {
      assert id != SERVER_ID;
      assert id !in OnEvents(ps, events).peers;
    }
  }
}
