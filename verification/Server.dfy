/** The server half of a session. Each method is one critical section of the server's mutex; it is proved
    against a function on the server's state, and the theorems about runs are about those functions. */
module Server {
  import opened Options
  import opened Wire
  import opened Protocol
  import opened Codec
  import opened Reliable

  datatype Slot = Slot(
    info: ClientInfo, token: nat, port: int,
    lastReceivedSeq: nat, nextSendSeq: nat, outbox: seq<WireMessage>,
    sentSnapshotVersion: nat, updates: nat, stateUpdates: nat, snapshotsSent: nat)

  /** Everything the mutex guards, as a value. */
  datatype ServerState = ServerState(
    clients: map<nat, Slot>, nextId: nat,
    rosterLog: seq<RosterEvent>, rosterEvents: seq<RosterEvent>, departed: seq<nat>,
    states: map<nat, ReceivedState>, inbox: seq<ReceivedMessage>,
    snapshot: Bytes, snapshotTick: int, snapshotVersion: nat)

  const NEW_SERVER := ServerState(map[], 1, [], [], [], map[], [], [], 0, 0)

  /** Ids are handed out once, counting up. */
  ghost predicate ServerOk(s: ServerState) {
    && 1 <= s.nextId
    && (forall id <- s.clients :: 1 <= id < s.nextId && s.clients[id].info.id == id)
  }

  // ---- joining ----------------------------------------------------------------------------------

  /** The first client below bound that joined with token. */
  function Holder(clients: map<nat, Slot>, token: nat, bound: nat): (r: Option<nat>)
    ensures r.Some? ==> r.value in clients && clients[r.value].token == token && r.value < bound
    ensures r.None? ==> forall id <- clients :: id < bound ==> clients[id].token != token
  {
    if bound == 0 then None
    else match Holder(clients, token, bound - 1)
      case Some(id) => Some(id)
      case None => if bound - 1 in clients && clients[bound - 1].token == token then Some(bound - 1) else None
  }

  function AddRosterEvent(s: ServerState, change: nat, client: ClientInfo): ServerState {
    var e := RosterEvent(change, client);
    s.(rosterLog := s.rosterLog + [e], rosterEvents := s.rosterEvents + [e])
  }

  const REFUSED := JoinReply(REJECTED, SERVER_ID, 0)

  /** port is what a fresh reply socket binds to, or None if it cannot be bound. */
  function Join(s: ServerState, req: JoinRequest, port: Option<int>): (ServerState, JoinReply) {
    match Holder(s.clients, req.token, s.nextId)
    case Some(id) => (s, JoinReply(OK, id, s.clients[id].port))
    case None =>
      if s.nextId > MAX_CLIENT_ID || port.None? then (s, REFUSED) else
      var slot := Slot(ClientInfo(s.nextId, req.hello, req.peerEndpoint), req.token, port.value, 0, 1, [], 0, 0, 0, 0);
      (AddRosterEvent(s, JOINED, slot.info).(clients := s.clients[s.nextId := slot], nextId := s.nextId + 1),
       JoinReply(OK, s.nextId, port.value))
  }

  /** No two live clients joined with the same token. */
  ghost predicate OneHolder(s: ServerState) {
    forall i <- s.clients, j <- s.clients :: s.clients[i].token == s.clients[j].token ==> i == j
  }

  /** Joining is idempotent: however often a live client's join is repeated, in whatever state the server is by
      then, it gets its own id and port back and nothing changes. */
  lemma RejoinKeepsId(s: ServerState, id: nat, req: JoinRequest, port: Option<int>)
    requires ServerOk(s) && OneHolder(s) && id in s.clients && s.clients[id].token == req.token
    ensures Join(s, req, port) == (s, JoinReply(OK, id, s.clients[id].port))
  {
    assert id < s.nextId;
  }

  /** A first join gets an id nobody ever had; a full server or a socket that cannot be bound changes nothing. */
  lemma JoinOutcome(s: ServerState, req: JoinRequest, port: Option<int>)
    requires ServerOk(s) && OneHolder(s)
    ensures var (s', reply) := Join(s, req, port);
      && ServerOk(s') && OneHolder(s')
      && (reply.status == OK ==> reply.id in s'.clients && s'.clients[reply.id].token == req.token)
      && (reply.status != OK ==>
            s' == s && reply.status == REJECTED && reply.id == SERVER_ID && (s.nextId > MAX_CLIENT_ID || port.None?))
      && (reply.status == OK ==> reply.updatePort == s'.clients[reply.id].port)
      && (s' != s <==> s.nextId <= MAX_CLIENT_ID && port.Some? && forall id <- s.clients :: s.clients[id].token != req.token)
      && (s' != s ==>
            var info := ClientInfo(s.nextId, req.hello, req.peerEndpoint);
            && reply == JoinReply(OK, s.nextId, port.value)
            && s'.clients == s.clients[s.nextId := Slot(info, req.token, port.value, 0, 1, [], 0, 0, 0, 0)]
            && s'.rosterLog == s.rosterLog + [RosterEvent(JOINED, info)] && s'.rosterEvents == s.rosterEvents + [RosterEvent(JOINED, info)]
            && s'.nextId == s.nextId + 1 && s'.states == s.states && s'.departed == s.departed && s'.inbox == s.inbox
            && s'.snapshot == s.snapshot && s'.snapshotTick == s.snapshotTick && s'.snapshotVersion == s.snapshotVersion)
  {
    var (s', reply) := Join(s, req, port);
    if s' != s {
      assert forall i <- s.clients :: i < s.nextId;
    }
  }

  // ---- updates ----------------------------------------------------------------------------------

  /** Everyone connected, in id order, as if they had all just joined. */
  function FullRoster(clients: map<nat, Slot>, bound: nat): seq<RosterEvent> {
    if bound == 0 then [] else
    FullRoster(clients, bound - 1)
      + if bound - 1 in clients then [RosterEvent(JOINED, clients[bound - 1].info)] else []
  }

  function LogFrom(log: seq<RosterEvent>, version: nat): seq<RosterEvent> {
    if version < |log| then log[version..] else []
  }

  function Retire(s: ServerState, id: nat): ServerState {
    if id !in s.clients then s else
    AddRosterEvent(s, LEFT, s.clients[id].info)
      .(clients := s.clients - {id}, departed := s.departed + [id], states := s.states - {id})
  }

  function RetireAll(s: ServerState, ids: seq<nat>): ServerState
  {
    if ids == [] then s else Retire(RetireAll(s, ids[..|ids| - 1]), ids[|ids| - 1])
  }

  /** One LEFT for each id, in order, with the client as it was known. */
  ghost predicate LogsLeft(log: seq<RosterEvent>, log': seq<RosterEvent>, clients: map<nat, Slot>, ids: seq<nat>) {
    && |log'| == |log| + |ids| && log'[..|log|] == log
    && forall i :: 0 <= i < |ids| ==> ids[i] in clients && log'[|log| + i] == RosterEvent(LEFT, clients[ids[i]].info)
  }

  /** These clients have gone, in this order, and nothing else has changed. */
  ghost predicate HaveLeft(s: ServerState, s': ServerState, ids: seq<nat>) {
    && s'.clients == (map id | id in s.clients && id !in ids :: s.clients[id])
    && s'.states == (map id | id in s.states && id !in ids :: s.states[id])
    && s'.departed == s.departed + ids
    && LogsLeft(s.rosterLog, s'.rosterLog, s.clients, ids) && LogsLeft(s.rosterEvents, s'.rosterEvents, s.clients, ids)
    && s'.nextId == s.nextId && s'.inbox == s.inbox
    && s'.snapshot == s.snapshot && s'.snapshotTick == s.snapshotTick && s'.snapshotVersion == s.snapshotVersion
  }

  lemma {:induction false} AllLeave(s: ServerState, ids: seq<nat>)
    requires forall i :: 0 <= i < |ids| ==> ids[i] in s.clients
    requires forall i, j :: 0 <= i < j < |ids| ==> ids[i] != ids[j]
    ensures HaveLeft(s, RetireAll(s, ids), ids)
    decreases |ids|
  {
    if ids != [] {
      var front, last := ids[..|ids| - 1], ids[|ids| - 1];
      AllLeave(s, front);
      assert ids == front + [last] && last !in front;
      OneLeaves(s, RetireAll(s, front), front, last);
    }
  }

  lemma OneLeaves(s: ServerState, mid: ServerState, ids: seq<nat>, id: nat)
    requires HaveLeft(s, mid, ids) && id in s.clients && id !in ids
    ensures HaveLeft(s, Retire(mid, id), ids + [id])
  {
    var s' := Retire(mid, id);
    assert s'.clients == (map k | k in s.clients && k !in ids + [id] :: s.clients[k]);
    assert s'.states == (map k | k in s.states && k !in ids + [id] :: s.states[k]);
  }

  lemma LeavesAlone(s: ServerState, id: nat)
    requires id in s.clients
    ensures HaveLeft(s, Retire(s, id), [id])
  {
    AllLeave(s, []);
    OneLeaves(s, s, [], id);
    assert [] + [id] == [id];
  }

  function Bare(status: nat): UpdateReply { UpdateReply(status, 0, 0, [], [], false, 0, []) }

  /** The bookkeeping of one update, before the reply is made. */
  function Absorb(s: ServerState, id: nat, req: UpdateRequest): ServerState
    requires id in s.clients
  {
    var slot := s.clients[id];
    var got := Accepted(slot.lastReceivedSeq, req.messages);
    s.(clients := s.clients[id := slot.(
         updates := slot.updates + 1,
         stateUpdates := slot.stateUpdates + (if req.hasState then 1 else 0),
         lastReceivedSeq := slot.lastReceivedSeq + |got|,
         outbox := Unacked(slot.outbox, req.ackSeq))],
       states := if req.hasState then s.states[id := ReceivedState(id, req.tick, req.state)] else s.states,
       inbox := s.inbox + Deliver(id, got))
  }

  function Answer(s: ServerState, id: nat, req: UpdateRequest): UpdateReply
    requires id in s.clients
  {
    var events := if req.rosterVersion == 0 then FullRoster(s.clients, s.nextId) else LogFrom(s.rosterLog, req.rosterVersion);
    UpdateReply(OK, s.clients[id].lastReceivedSeq, |s.rosterLog|, events, s.clients[id].outbox, false, 0, [])
  }

  function Update(s: ServerState, id: nat, req: UpdateRequest): (ServerState, UpdateReply) {
    if req.id != id then (s, Bare(REJECTED))
    else if id !in s.clients then (s, Bare(UNKNOWN_CLIENT))
    else
      var s1 := Absorb(s, id, req);
      var reply := Answer(s1, id, req);
      if req.kind == LEAVE then (Retire(s1, id), reply)
      else if s.snapshotVersion != 0 && s.clients[id].sentSnapshotVersion != s.snapshotVersion then
        var slot := s1.clients[id].(sentSnapshotVersion := s.snapshotVersion, snapshotsSent := s1.clients[id].snapshotsSent + 1);
        (s1.(clients := s1.clients[id := slot]),
         reply.(hasSnapshot := true, snapshotTick := s.snapshotTick, snapshot := s.snapshot))
      else (s1, reply)
  }

  /** What one accepted update does to the messages, whichever branch it takes afterwards. */
  lemma Updated(s: ServerState, id: nat, req: UpdateRequest)
    requires id in s.clients && req.id == id
    ensures var (s1, reply) := Update(s, id, req);
      var got := Accepted(s.clients[id].lastReceivedSeq, req.messages);
      && reply.status == OK && reply.ackSeq == s.clients[id].lastReceivedSeq + |got|
      && reply.messages == Unacked(s.clients[id].outbox, req.ackSeq)
      && s1.inbox == s.inbox + Deliver(id, got)
      && (id in s1.clients <==> req.kind != LEAVE)
      && (id in s1.clients ==>
            && s1.clients[id].lastReceivedSeq == reply.ackSeq && s1.clients[id].outbox == reply.messages
            && s1.clients[id].nextSendSeq == s.clients[id].nextSendSeq
            && s1.clients[id].info == s.clients[id].info && s1.clients[id].token == s.clients[id].token)
      && (forall k :: k != id ==> (k in s1.clients <==> k in s.clients) && (k in s.clients ==> s1.clients[k] == s.clients[k]))
      && s1.nextId == s.nextId
  {
  }

  /** A snapshot goes out exactly when the client stays, something is published, and this client was not sent
      that version before; it is then the newest, and the client counts as having been sent it. */
  lemma SnapshotOffered(s: ServerState, id: nat, req: UpdateRequest)
    requires id in s.clients && req.id == id
    ensures var (s1, reply) := Update(s, id, req);
      && (reply.hasSnapshot <==> req.kind != LEAVE && s.snapshotVersion != 0 && s.clients[id].sentSnapshotVersion != s.snapshotVersion)
      && (reply.hasSnapshot ==> reply.snapshot == s.snapshot && reply.snapshotTick == s.snapshotTick)
      && (req.kind != LEAVE ==>
            && id in s1.clients && s1.clients[id].sentSnapshotVersion ==
                 (if reply.hasSnapshot then s.snapshotVersion else s.clients[id].sentSnapshotVersion)
            && s1.clients[id].snapshotsSent == s.clients[id].snapshotsSent + (if reply.hasSnapshot then 1 else 0))
      && s1.snapshot == s.snapshot && s1.snapshotTick == s.snapshotTick && s1.snapshotVersion == s.snapshotVersion
  {
  }

  /** Who stays is counted and has its scene taken; who leaves is gone, logged and listed, scene and all. */
  lemma StaysOrLeaves(s: ServerState, id: nat, req: UpdateRequest)
    requires id in s.clients && req.id == id
    ensures var (s1, reply) := Update(s, id, req);
      && reply.rosterVersion == |s.rosterLog|
      && (req.kind != LEAVE ==>
            && id in s1.clients && s1.clients[id].port == s.clients[id].port
            && s1.clients[id].updates == s.clients[id].updates + 1
            && s1.clients[id].stateUpdates == s.clients[id].stateUpdates + (if req.hasState then 1 else 0)
            && s1.states == (if req.hasState then s.states[id := ReceivedState(id, req.tick, req.state)] else s.states)
            && s1.departed == s.departed && s1.rosterLog == s.rosterLog && s1.rosterEvents == s.rosterEvents)
      && (req.kind == LEAVE ==>
            && s1.clients == s.clients - {id} && s1.states == s.states - {id} && s1.departed == s.departed + [id]
            && s1.rosterLog == s.rosterLog + [RosterEvent(LEFT, s.clients[id].info)]
            && s1.rosterEvents == s.rosterEvents + [RosterEvent(LEFT, s.clients[id].info)])
  {
  }

  /** A request for another client, or from one that is gone, has no effect and an empty reply. */
  lemma UpdateRefused(s: ServerState, id: nat, req: UpdateRequest)
    requires id !in s.clients || req.id != id
    ensures var (s1, reply) := Update(s, id, req);
      && s1 == s && reply.status == (if req.id != id then REJECTED else UNKNOWN_CLIENT)
      && !reply.hasSnapshot && reply.messages == [] && reply.rosterEvents == [] && reply.ackSeq == 0 && reply.rosterVersion == 0
  {
  }

  // ---- the server's own thread --------------------------------------------------------------------

  function Queue(slot: Slot, kind: nat, payload: Bytes, tick: int): Slot {
    slot.(outbox := slot.outbox + [WireMessage(slot.nextSendSeq, kind, tick, payload)], nextSendSeq := slot.nextSendSeq + 1)
  }

  function Send(s: ServerState, to: nat, kind: nat, payload: Bytes, tick: int): ServerState {
    if to !in s.clients then s else s.(clients := s.clients[to := Queue(s.clients[to], kind, payload, tick)])
  }

  function Broadcast(s: ServerState, kind: nat, payload: Bytes, tick: int): ServerState {
    s.(clients := map id | id in s.clients :: Queue(s.clients[id], kind, payload, tick))
  }

  function Publish(s: ServerState, encoded: Bytes, tick: int): ServerState {
    s.(snapshot := encoded, snapshotTick := tick, snapshotVersion := s.snapshotVersion + 1)
  }

  // ---- the class ----------------------------------------------------------------------------------

  class SessionServer {
    var clients: map<nat, Slot>
    var nextId: nat
    var rosterLog: seq<RosterEvent>      // its length is the roster version
    var rosterEvents: seq<RosterEvent>
    var departed: seq<nat>               // gone, their entities still to be dropped
    var states: map<nat, ReceivedState>
    var inbox: seq<ReceivedMessage>
    var snapshot: Bytes
    var snapshotTick: int
    var snapshotVersion: nat             // counts the snapshots published

    ghost function View(): ServerState
      reads this
    {
      ServerState(clients, nextId, rosterLog, rosterEvents, departed, states, inbox, snapshot, snapshotTick, snapshotVersion)
    }

    constructor ()
      ensures View() == NEW_SERVER && ServerOk(View())
    {
      clients, nextId, rosterLog, rosterEvents, departed, states := map[], 1, [], [], [], map[];
      inbox, snapshot, snapshotTick, snapshotVersion := [], [], 0, 0;
    }

    method LogRosterEvent(change: nat, client: ClientInfo)
      modifies this
      ensures View() == AddRosterEvent(old(View()), change, client)
    {
      var event := RosterEvent(change, client);
      rosterLog := rosterLog + [event];
      rosterEvents := rosterEvents + [event];
    }

    /** An ordered map is walked by id. */
    method FindToken(token: nat) returns (found: Option<nat>)
      ensures found == Holder(clients, token, nextId)
    {
      found := None;
      var id := 0;
      while id < nextId && found.None?
        invariant 0 <= id <= nextId && found == Holder(clients, token, id)
      {
        if id in clients && clients[id].token == token {
          found := Some(id);
        }
        id := id + 1;
      }
      if found.Some? {
        HolderStays(clients, token, id, nextId);
      }
    }

    method HandleJoin(request: Bytes, port: Option<int>) returns (reply: Bytes)
      requires ServerOk(View())
      modifies this
      ensures ServerOk(View())
      ensures match DecodeJoinRequest(request)
        case Malformed => View() == old(View()) && reply == PrintJoinReply(REFUSED)
        case Message(req) =>
          && View() == Join(old(View()), req, port).0
          && reply == PrintJoinReply(Join(old(View()), req, port).1)
    {
      var ok, req := ReadJoinRequest(request);
      if !ok {
        reply := EncodeJoinReply(REFUSED);
        return;
      }
      var holder := FindToken(req.token);
      if holder.Some? {
        reply := EncodeJoinReply(JoinReply(OK, holder.value, clients[holder.value].port));
        return;
      }
      if nextId > MAX_CLIENT_ID || port.None? {
        reply := EncodeJoinReply(REFUSED);
        return;
      }
      var id := nextId;
      var slot := Slot(ClientInfo(id, req.hello, req.peerEndpoint), req.token, port.value, 0, 1, [], 0, 0, 0, 0);
      nextId := nextId + 1;
      LogRosterEvent(JOINED, slot.info);
      clients := clients[id := slot];
      reply := EncodeJoinReply(JoinReply(OK, id, port.value));
    }

    method ListClients() returns (events: seq<RosterEvent>)
      ensures events == FullRoster(clients, nextId)
    {
      events := [];
      var id := 0;
      while id < nextId
        invariant 0 <= id <= nextId && events == FullRoster(clients, id)
      {
        if id in clients {
          events := events + [RosterEvent(JOINED, clients[id].info)];
        }
        id := id + 1;
      }
    }

    method ListSince(version: nat) returns (events: seq<RosterEvent>)
      ensures events == LogFrom(rosterLog, version)
    {
      events := [];
      var v := version;
      while v < |rosterLog|
        invariant v <= |rosterLog| || (v == version && events == [])
        invariant version <= v
        invariant v <= |rosterLog| ==> events == rosterLog[version..v]
      {
        events := events + [rosterLog[v]];
        v := v + 1;
      }
    }

    method RetireClient(id: nat)
      requires ServerOk(View())
      modifies this
      ensures ServerOk(View()) && View() == Retire(old(View()), id)
      ensures if id in old(clients) then HaveLeft(old(View()), View(), [id]) else View() == old(View())
    {
      if id in clients {
        LeavesAlone(View(), id);
      }
      if id !in clients {
        return;
      }
      var slot := clients[id];
      clients := clients - {id};
      LogRosterEvent(LEFT, slot.info);
      departed := departed + [id];
      states := states - {id};
    }

    method HandleUpdate(id: nat, request: Bytes) returns (reply: Bytes)
      requires ServerOk(View())
      modifies this
      ensures ServerOk(View())
      ensures match DecodeUpdateRequest(request)
        case Malformed => View() == old(View()) && reply == PrintUpdateReply(Bare(REJECTED))
        case Message(req) =>
          && View() == Update(old(View()), id, req).0
          && reply == PrintUpdateReply(Update(old(View()), id, req).1)
    {
      var ok, req := ReadUpdateRequest(request);
      var r := Bare(REJECTED);
      if ok {
        r := Respond(id, req);
      }
      reply := EncodeUpdateReply(r);
    }

    method Respond(id: nat, req: UpdateRequest) returns (r: UpdateReply)
      requires ServerOk(View())
      modifies this
      ensures ServerOk(View())
      ensures View() == Update(old(View()), id, req).0 && r == Update(old(View()), id, req).1
    {
      if req.id != id {
        return Bare(REJECTED);
      }
      if id !in clients {
        return Bare(UNKNOWN_CLIENT);
      }
      r := Process(id, req);
      if req.kind == LEAVE {
        RetireClient(id);
        return;
      }
      var slot := clients[id];
      if snapshotVersion != 0 && slot.sentSnapshotVersion != snapshotVersion {
        r := r.(hasSnapshot := true, snapshotTick := snapshotTick, snapshot := snapshot);
        clients := clients[id := slot.(sentSnapshotVersion := snapshotVersion, snapshotsSent := slot.snapshotsSent + 1)];
      }
    }

    method Process(id: nat, req: UpdateRequest) returns (r: UpdateReply)
      requires ServerOk(View()) && id in clients
      modifies this
      ensures ServerOk(View()) && View() == Absorb(old(View()), id, req) && r == Answer(View(), id, req)
    {
      var slot := clients[id];
      slot := slot.(updates := slot.updates + 1);
      if req.hasState {
        states := states[id := ReceivedState(id, req.tick, req.state)];
        slot := slot.(stateUpdates := slot.stateUpdates + 1);
      }
      var last, box := AcceptMessages(id, slot.lastReceivedSeq, req.messages, inbox);
      inbox := box;
      var rest := DropAcknowledged(slot.outbox, req.ackSeq);
      clients := clients[id := slot.(lastReceivedSeq := last, outbox := rest)];
      var events;
      if req.rosterVersion == 0 {
        events := ListClients();
      } else {
        events := ListSince(req.rosterVersion);
      }
      r := UpdateReply(OK, last, |rosterLog|, events, rest, false, 0, []);
    }

    method FindSilent(late: set<nat>) returns (silent: seq<nat>)
      ensures forall id :: id in silent <==> id in late && id in clients && id < nextId
      ensures forall i, j :: 0 <= i < j < |silent| ==> silent[i] < silent[j]
    {
      silent := [];
      var id := 0;
      while id < nextId
        invariant 0 <= id <= nextId
        invariant forall k :: k in silent <==> k in late && k in clients && k < id
        invariant forall i, j :: 0 <= i < j < |silent| ==> silent[i] < silent[j]
      {
        if id in clients && id in late {
          assert forall i :: 0 <= i < |silent| ==> silent[i] in silent;
          silent := silent + [id];
        }
        id := id + 1;
      }
    }

    method RetireEach(silent: seq<nat>)
      requires ServerOk(View())
      modifies this
      ensures ServerOk(View()) && View() == RetireAll(old(View()), silent)
    {
      var i := 0;
      while i < |silent|
        invariant 0 <= i <= |silent| && ServerOk(View())
        invariant View() == RetireAll(old(View()), silent[..i])
      {
        RetireClient(silent[i]);
        assert silent[..i + 1][..i] == silent[..i];
        i := i + 1;
      }
      assert silent[..i] == silent;
    }

    /** late: the clients the clock says have been silent for too long. Those of them that are live leave, in
        the order of their ids. */
    method Watchdog(late: set<nat>)
      requires ServerOk(View())
      modifies this
      ensures ServerOk(View())
      ensures exists silent: seq<nat> ::
        && (forall id :: id in silent <==> id in late && id in old(clients))
        && (forall i, j :: 0 <= i < j < |silent| ==> silent[i] < silent[j])
        && HaveLeft(old(View()), View(), silent)
    {
      var silent := FindSilent(late);
      AllLeave(View(), silent);
      RetireEach(silent);
    }

    method SendTo(to: nat, kind: nat, payload: Bytes, tick: int)
      requires ServerOk(View())
      modifies this
      ensures ServerOk(View()) && View() == Send(old(View()), to, kind, payload, tick)
      ensures to !in old(clients) ==> View() == old(View())
      ensures to in old(clients) ==>
        var slot := old(clients)[to];
        View() == old(View()).(clients := old(clients)[to := slot.(
          outbox := slot.outbox + [WireMessage(slot.nextSendSeq, kind, tick, payload)], nextSendSeq := slot.nextSendSeq + 1)])
    {
      if to !in clients {
        return;
      }
      var slot := clients[to];
      clients := clients[to := slot.(outbox := slot.outbox + [WireMessage(slot.nextSendSeq, kind, tick, payload)],
                                     nextSendSeq := slot.nextSendSeq + 1)];
    }

    method BroadcastAll(kind: nat, payload: Bytes, tick: int)
      requires ServerOk(View())
      modifies this
      ensures ServerOk(View()) && View() == Broadcast(old(View()), kind, payload, tick)
      ensures clients.Keys == old(clients).Keys && View() == old(View()).(clients := clients)
      ensures forall id <- clients ::
        var slot := old(clients)[id];
        clients[id] == slot.(outbox := slot.outbox + [WireMessage(slot.nextSendSeq, kind, tick, payload)], nextSendSeq := slot.nextSendSeq + 1)
    {
      var id := 0;
      while id < nextId
        invariant 0 <= id <= nextId && ServerOk(View())
        invariant View() == old(View()).(clients := clients) && clients.Keys == old(clients).Keys
        invariant forall k <- clients :: clients[k] == if k < id then Queue(old(clients)[k], kind, payload, tick) else old(clients)[k]
      {
        if id in clients {
          SendTo(id, kind, payload, tick);
        }
        id := id + 1;
      }
      assert clients == Broadcast(old(View()), kind, payload, tick).clients;
    }

    method DrainMessages() returns (drained: seq<ReceivedMessage>)
      modifies this
      ensures drained == old(inbox) && View() == old(View()).(inbox := [])
    {
      drained := inbox;
      inbox := [];
    }

    method DrainRosterEvents() returns (drained: seq<RosterEvent>)
      modifies this
      ensures drained == old(rosterEvents) && View() == old(View()).(rosterEvents := [])
    {
      drained := rosterEvents;
      rosterEvents := [];
    }

    /** First critical section of applyClientStates. The order of an unordered map is arbitrary. */
    method DrainStates() returns (drained: seq<ReceivedState>)
      modifies this
      ensures View() == old(View()).(states := map[])
      ensures Enumerates(drained, old(states))
    {
      drained := [];
      var left := states.Keys;
      ghost var keys: seq<nat> := [];
      while left != {}
        invariant View() == old(View()) && left <= states.Keys
        invariant Listing(drained, keys, states)
        invariant forall id :: id in keys <==> id in states && id !in left
        decreases |left|
      {
        var id :| id in left;
        drained := drained + [states[id]];
        keys := keys + [id];
        left := left - {id};
      }
      states := map[];
    }

    /** Second critical section of applyClientStates. */
    method SwapDeparted() returns (gone: seq<nat>)
      modifies this
      ensures gone == old(departed) && View() == old(View()).(departed := [])
    {
      gone := departed;
      departed := [];
    }

    /** The locked part of publishScene. */
    method PublishEncoded(encoded: Bytes, tick: int)
      modifies this
      ensures View() == Publish(old(View()), encoded, tick)
      ensures View() == old(View()).(snapshot := encoded, snapshotTick := tick, snapshotVersion := old(snapshotVersion) + 1)
    {
      snapshot := encoded;
      snapshotTick := tick;
      snapshotVersion := snapshotVersion + 1;
    }
  }

  lemma {:induction false} HolderStays(clients: map<nat, Slot>, token: nat, low: nat, high: nat)
    requires low <= high && Holder(clients, token, low).Some?
    ensures Holder(clients, token, high) == Holder(clients, token, low)
    decreases high
  {
    if low < high {
      HolderStays(clients, token, low, high - 1);
    }
  }

  /** values lists m at the given keys, each key once. */
  ghost predicate Listing<V(!new)>(values: seq<V>, keys: seq<nat>, m: map<nat, V>) {
    && |values| == |keys|
    && (forall i :: 0 <= i < |keys| ==> keys[i] in m && values[i] == m[keys[i]])
    && (forall i, j :: 0 <= i < j < |keys| ==> keys[i] != keys[j])
  }

  /** values is some enumeration of m. */
  ghost predicate Enumerates<V(!new)>(values: seq<V>, m: map<nat, V>) {
    exists keys: seq<nat> :: Listing(values, keys, m) && forall id :: id in keys <==> id in m
  }
}
