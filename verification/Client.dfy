/** The client half of a session, in the same manner: one method per critical section, proved against a
    function on the client's state. */
module Client {
  import opened Options
  import opened Wire
  import opened Protocol
  import opened Codec
  import opened Reliable
  import opened Server

  datatype ClientState = ClientState(
    token: nat, hello: Bytes, peerEndpoint: Bytes, id: nat, updatePort: int,
    pendingState: Option<ReceivedState>, pollRequested: bool, lastTick: int,
    nextSendSeq: nat, outbox: seq<WireMessage>, lastReceivedSeq: nat, rosterVersion: nat,
    inbox: seq<ReceivedMessage>, rosterEvents: seq<RosterEvent>, latestSnapshot: Option<ReceivedState>)

  function NewClient(token: nat, hello: Bytes, peerEndpoint: Bytes): ClientState {
    ClientState(token, hello, peerEndpoint, SERVER_ID, 0, None, false, 0, 1, [], 0, 0, [], [], None)
  }

  datatype ExchangeResult = Done | Failed | Dropped

  // ---- joining ----------------------------------------------------------------------------------

  function JoinRequestOf(c: ClientState): JoinRequest { JoinRequest(c.token, c.hello, c.peerEndpoint) }

  /** A client that has an id keeps it. */
  function JoinAnswered(c: ClientState, reply: JoinReply): ClientState {
    if c.id != SERVER_ID || reply.status != OK then c
    else c.(updatePort := reply.updatePort, id := reply.id)
  }

  // ---- exchanges --------------------------------------------------------------------------------

  function BuildRequest(c: ClientState, kind: nat): UpdateRequest {
    UpdateRequest(kind, c.id, c.lastTick, c.lastReceivedSeq, c.rosterVersion, false, [], c.outbox)
  }

  /** The update loop's first critical section: the pending scene moves into the request. */
  function TakeRequest(c: ClientState): (ClientState, UpdateRequest) {
    var req := BuildRequest(c, UPDATE);
    match c.pendingState
    case None => (c.(pollRequested := false), req)
    case Some(p) => (c.(pollRequested := false, pendingState := None),
                     req.(hasState := true, tick := p.tick, state := p.payload))
  }

  function ProcessReply(c: ClientState, reply: UpdateReply): (ClientState, ExchangeResult) {
    if reply.status == UNKNOWN_CLIENT then (c, Dropped)
    else if reply.status != OK then (c, Failed)
    else
      var got := Accepted(c.lastReceivedSeq, reply.messages);
      (c.(outbox := Unacked(c.outbox, reply.ackSeq),
          inbox := c.inbox + Deliver(SERVER_ID, got),
          lastReceivedSeq := c.lastReceivedSeq + |got|,
          rosterEvents := c.rosterEvents + reply.rosterEvents,
          rosterVersion := reply.rosterVersion,
          latestSnapshot := if reply.hasSnapshot then Some(ReceivedState(SERVER_ID, reply.snapshotTick, reply.snapshot))
                            else c.latestSnapshot),
       Done)
  }

  /** The update loop's second critical section after a failure: the scene goes back, unless a newer one
      has been submitted in the meantime. */
  function KeepForRetry(c: ClientState, req: UpdateRequest): ClientState {
    if req.hasState && c.pendingState.None?
    then c.(pendingState := Some(ReceivedState(req.id, req.tick, req.state))) else c
  }

  // ---- the application's calls --------------------------------------------------------------------

  function SendMessage(c: ClientState, kind: nat, payload: Bytes, tick: int): ClientState {
    c.(outbox := c.outbox + [WireMessage(c.nextSendSeq, kind, tick, payload)], nextSendSeq := c.nextSendSeq + 1)
  }

  function Submit(c: ClientState, state: Bytes, tick: int): ClientState {
    c.(pendingState := Some(ReceivedState(c.id, tick, state)), lastTick := tick)
  }

  function Poll(c: ClientState, tick: int): ClientState {
    c.(pollRequested := true, lastTick := tick)
  }

  // ---- the class ----------------------------------------------------------------------------------

  class SessionClient {
    const token: nat
    const hello: Bytes
    const peerEndpoint: Bytes
    var id: nat
    var updatePort: int
    var pendingState: Option<ReceivedState>
    var pollRequested: bool
    var lastTick: int
    var nextSendSeq: nat
    var outbox: seq<WireMessage>
    var lastReceivedSeq: nat
    var rosterVersion: nat
    var inbox: seq<ReceivedMessage>
    var rosterEvents: seq<RosterEvent>
    var latestSnapshot: Option<ReceivedState>

    ghost function View(): ClientState
      reads this
    {
      ClientState(token, hello, peerEndpoint, id, updatePort, pendingState, pollRequested, lastTick,
                  nextSendSeq, outbox, lastReceivedSeq, rosterVersion, inbox, rosterEvents, latestSnapshot)
    }

    constructor (token: nat, hello: Bytes, peerEndpoint: Bytes)
      ensures View() == NewClient(token, hello, peerEndpoint)
    {
      this.token, this.hello, this.peerEndpoint := token, hello, peerEndpoint;
      id, updatePort, pendingState, pollRequested, lastTick := SERVER_ID, 0, None, false, 0;
      nextSendSeq, outbox, lastReceivedSeq, rosterVersion := 1, [], 0, 0;
      inbox, rosterEvents, latestSnapshot := [], [], None;
    }

    /** join(), given what came back: None for a timeout. */
    method FinishJoin(bytes: Option<Bytes>) returns (joined: bool)
      modifies this
      ensures joined == (id != SERVER_ID || (bytes.Some? && var d := DecodeJoinReply(bytes.value); d.Message? && d.value.status == OK))
      ensures View() == match bytes
        case None => old(View())
        case Some(b) => match DecodeJoinReply(b) case Malformed => old(View()) case Message(r) => JoinAnswered(old(View()), r)
      ensures old(id) == SERVER_ID && joined ==>
        var r := DecodeJoinReply(bytes.value).value; View() == old(View()).(id := r.id, updatePort := r.updatePort)
      ensures old(id) != SERVER_ID || !joined ==> View() == old(View())
    {
      if id != SERVER_ID {
        return true;
      }
      if bytes.None? {
        return false;
      }
      var ok, reply := ReadJoinReply(bytes.value);
      if !ok || reply.status != OK {
        return false;
      }
      updatePort := reply.updatePort;
      id := reply.id;
      joined := true;
    }

    method BuildLocked(kind: nat) returns (req: UpdateRequest)
      ensures req == BuildRequest(View(), kind)
      ensures req == UpdateRequest(kind, id, lastTick, lastReceivedSeq, rosterVersion, false, [], outbox)
    {
      req := UpdateRequest(kind, id, lastTick, lastReceivedSeq, rosterVersion, false, [], outbox);
    }

    method StartUpdate() returns (req: UpdateRequest)
      modifies this
      ensures View() == TakeRequest(old(View())).0 && req == TakeRequest(old(View())).1
      ensures View() == old(View()).(pendingState := None, pollRequested := false)
      ensures req.kind == UPDATE && req.id == id && req.ackSeq == lastReceivedSeq && req.rosterVersion == rosterVersion
      ensures req.messages == outbox && req.hasState == old(pendingState).Some?
      ensures match old(pendingState)
        case None => req.tick == lastTick && req.state == []
        case Some(scene) => req.tick == scene.tick && req.state == scene.payload
    {
      req := BuildLocked(UPDATE);
      pollRequested := false;
      if pendingState.Some? {
        req := req.(hasState := true, tick := pendingState.value.tick, state := pendingState.value.payload);
        pendingState := None;
      }
    }

    /** exchange(), given what came back: None for a timeout. */
    method FinishExchange(bytes: Option<Bytes>) returns (result: ExchangeResult)
      modifies this
      ensures match bytes
        case None => View() == old(View()) && result == Failed
        case Some(b) => match DecodeUpdateReply(b)
          case Malformed => View() == old(View()) && result == Failed
          case Message(reply) => View() == ProcessReply(old(View()), reply).0 && result == ProcessReply(old(View()), reply).1
    {
      if bytes.None? {
        return Failed;
      }
      var ok, reply := ReadUpdateReply(bytes.value);
      if !ok {
        return Failed;
      }
      result := AcceptReply(reply);
    }

    method AcceptReply(reply: UpdateReply) returns (result: ExchangeResult)
      modifies this
      ensures View() == ProcessReply(old(View()), reply).0 && result == ProcessReply(old(View()), reply).1
      ensures result == if reply.status == OK then Done else if reply.status == UNKNOWN_CLIENT then Dropped else Failed
      ensures result != Done ==> View() == old(View())
      ensures result == Done ==>
        && rosterVersion == reply.rosterVersion && rosterEvents == old(rosterEvents) + reply.rosterEvents
        && latestSnapshot == (if reply.hasSnapshot then Some(ReceivedState(SERVER_ID, reply.snapshotTick, reply.snapshot))
                              else old(latestSnapshot))
        && View() == old(View()).(outbox := outbox, inbox := inbox, lastReceivedSeq := lastReceivedSeq,
                                  rosterEvents := rosterEvents, rosterVersion := rosterVersion, latestSnapshot := latestSnapshot)
    {
      if reply.status == UNKNOWN_CLIENT {
        return Dropped;
      }
      if reply.status != OK {
        return Failed;
      }
      outbox := DropAcknowledged(outbox, reply.ackSeq);
      lastReceivedSeq, inbox := AcceptMessages(SERVER_ID, lastReceivedSeq, reply.messages, inbox);
      rosterEvents := rosterEvents + reply.rosterEvents;
      rosterVersion := reply.rosterVersion;
      if reply.hasSnapshot {
        latestSnapshot := Some(ReceivedState(SERVER_ID, reply.snapshotTick, reply.snapshot));
      }
      result := Done;
    }

    method Retry(req: UpdateRequest)
      modifies this
      ensures View() == KeepForRetry(old(View()), req)
      ensures View() == old(View()).(pendingState := pendingState)
      ensures pendingState == if old(pendingState).Some? || !req.hasState then old(pendingState)
                              else Some(ReceivedState(req.id, req.tick, req.state))
    {
      if req.hasState && pendingState.None? {
        pendingState := Some(ReceivedState(req.id, req.tick, req.state));
      }
    }

    method SendTyped(kind: nat, payload: Bytes, tick: int)
      modifies this
      ensures View() == SendMessage(old(View()), kind, payload, tick)
      ensures View() == old(View()).(outbox := old(outbox) + [WireMessage(old(nextSendSeq), kind, tick, payload)],
                                     nextSendSeq := old(nextSendSeq) + 1)
    {
      outbox := outbox + [WireMessage(nextSendSeq, kind, tick, payload)];
      nextSendSeq := nextSendSeq + 1;
    }

    method SubmitScene(state: Bytes, tick: int)
      modifies this
      ensures View() == Submit(old(View()), state, tick)
      ensures View() == old(View()).(pendingState := Some(ReceivedState(id, tick, state)), lastTick := tick)
    {
      pendingState := Some(ReceivedState(id, tick, state));
      lastTick := tick;
    }

    method RequestSnapshot(tick: int)
      modifies this
      ensures View() == Poll(old(View()), tick)
      ensures View() == old(View()).(pollRequested := true, lastTick := tick)
    {
      pollRequested := true;
      lastTick := tick;
    }

    method DrainMessages() returns (drained: seq<ReceivedMessage>)
      modifies this
      ensures drained == old(inbox) && View() == old(View()).(inbox := [])
    {
      drained := inbox;
      inbox := [];
    }

    method DrainRosterEvents() returns (drained: seq<RosterEvent>)
      modifies this
      ensures drained == old(rosterEvents) && View() == old(View()).(rosterEvents := [])
    {
      drained := rosterEvents;
      rosterEvents := [];
    }

    method TakeSnapshot() returns (taken: Option<ReceivedState>)
      modifies this
      ensures taken == old(latestSnapshot) && View() == old(View()).(latestSnapshot := None)
    {
      taken := latestSnapshot;
      latestSnapshot := None;
    }
  }

  // ---- one round trip -----------------------------------------------------------------------------

  /** What must hold between the two ends for messages to make progress: each outbox is the sender's
      history after a point the receiver has reached. Session runs keep this. */
  ghost predicate InStep(outbox: seq<WireMessage>, sent: seq<WireMessage>, received: nat) {
    && Numbered(sent) && |outbox| <= |sent| && outbox == sent[|sent| - |outbox|..]
    && |sent| - |outbox| <= received <= |sent|
  }

  /** Progress. One exchange whose request is handled, whatever the client sends meanwhile (more), and whose
      Ok reply comes back: the server then has every message the client had when it built the request, the
      client has every message the server had when it handled it, and only what was sent since the request
      was built is left in the client's outbox. */
  lemma RoundTripDelivers(c: ClientState, s: ServerState, sent: seq<WireMessage>, more: seq<WireMessage>, sentTo: seq<WireMessage>)
    requires c.id in s.clients
    requires InStep(c.outbox, sent, s.clients[c.id].lastReceivedSeq)
    requires InStep(s.clients[c.id].outbox, sentTo, c.lastReceivedSeq)
    requires Numbered(sent + more)
    ensures var (c1, req) := TakeRequest(c);
      var (s1, reply) := Update(s, c.id, req);
      var (c2, result) := ProcessReply(c1.(outbox := c1.outbox + more), reply);
      && reply.status == OK && result == Done
      && c.id in s1.clients && s1.clients[c.id].lastReceivedSeq == |sent|
      && s1.inbox == s.inbox + Deliver(c.id, sent[s.clients[c.id].lastReceivedSeq..])
      && c2.lastReceivedSeq == |sentTo|
      && c2.inbox == c.inbox + Deliver(SERVER_ID, sentTo[c.lastReceivedSeq..])
      && c2.outbox == more
  {
    var (c1, req) := TakeRequest(c);
    RequestDelivers(c, s, req, sent, sentTo);
    var (s1, reply) := Update(s, c.id, req);
    ReplyDelivers(c1.(outbox := c1.outbox + more), reply, sent, more, sentTo);
  }

  lemma RequestDelivers(c: ClientState, s: ServerState, req: UpdateRequest, sent: seq<WireMessage>, sentTo: seq<WireMessage>)
    requires c.id in s.clients && req.id == c.id
    requires req.messages == c.outbox && req.ackSeq == c.lastReceivedSeq
    requires InStep(c.outbox, sent, s.clients[c.id].lastReceivedSeq)
    requires InStep(s.clients[c.id].outbox, sentTo, c.lastReceivedSeq)
    ensures var (s1, reply) := Update(s, c.id, req);
      && reply.status == OK && reply.ackSeq == |sent| && reply.messages == sentTo[c.lastReceivedSeq..]
      && (req.kind != LEAVE ==> c.id in s1.clients && s1.clients[c.id].lastReceivedSeq == |sent|)
      && s1.inbox == s.inbox + Deliver(c.id, sent[s.clients[c.id].lastReceivedSeq..])
  {
    var slot := s.clients[c.id];
    assert Accepted(slot.lastReceivedSeq, req.messages) == sent[slot.lastReceivedSeq..] by {
      var a := |sent| - |c.outbox|;
      assert req.messages == sent[a..|sent|];
      AcceptedReaches(slot.lastReceivedSeq, a, |sent|, sent);
      TailIsDrawn(sent, a);
      AcceptedContinues(slot.lastReceivedSeq, req.messages, sent);
    }
    assert Unacked(slot.outbox, req.ackSeq) == sentTo[c.lastReceivedSeq..] by {
      UnackedIsTail(sentTo, |sentTo| - |slot.outbox|, req.ackSeq);
    }
    Updated(s, c.id, req);
  }

  lemma ReplyDelivers(c: ClientState, reply: UpdateReply, sent: seq<WireMessage>, more: seq<WireMessage>, sentTo: seq<WireMessage>)
    requires reply.status == OK && reply.ackSeq == |sent|
    requires c.lastReceivedSeq <= |sentTo| && reply.messages == sentTo[c.lastReceivedSeq..]
    requires Numbered(sent + more) && Numbered(sentTo)
    requires |more| <= |c.outbox| <= |sent + more| && c.outbox == (sent + more)[|sent + more| - |c.outbox|..]
    ensures var (c2, result) := ProcessReply(c, reply);
      && result == Done && c2.outbox == more && c2.lastReceivedSeq == |sentTo|
      && c2.inbox == c.inbox + Deliver(SERVER_ID, sentTo[c.lastReceivedSeq..])
  {
    assert reply.messages == sentTo[c.lastReceivedSeq..|sentTo|];
    AcceptedReaches(c.lastReceivedSeq, c.lastReceivedSeq, |sentTo|, sentTo);
    TailIsDrawn(sentTo, c.lastReceivedSeq);
    AcceptedContinues(c.lastReceivedSeq, reply.messages, sentTo);
    assert sentTo[c.lastReceivedSeq..|sentTo|] == sentTo[c.lastReceivedSeq..];
    UnackedIsTail(sent + more, |sent + more| - |c.outbox|, |sent|);
    assert (sent + more)[|sent|..] == more;
  }
}
