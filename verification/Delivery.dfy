/** Exactly-once ordered delivery in both directions, for every run: requests and replies may be lost,
    delayed, duplicated, reordered, handled late, or heard by the wrong exchange. */
module Delivery {
  import opened Options
  import opened Wire
  import opened Protocol
  import opened Reliable
  import opened Server
  import opened Client
  import opened Session

  // ---- the invariant ------------------------------------------------------------------------------

  /** Every message the server has accepted, drained by its application or not. */
  ghost function Received(s: System): seq<ReceivedMessage> { s.delivered + s.server.inbox }

  ghost function Got(s: System, id: nat): nat { |From(id, Received(s))| }

  ghost predicate Claimed(s: System, id: nat) {
    id in s.tokenOf && s.tokenOf[id] in s.nodes && s.nodes[s.tokenOf[id]].c.id == id
  }

  /** What the client that holds id has ever sent, and how many server messages it has accepted. */
  ghost function SentBy(s: System, id: nat): seq<WireMessage> {
    if Claimed(s, id) then s.nodes[s.tokenOf[id]].sent else []
  }

  ghost function Have(s: System, id: nat): nat {
    if Claimed(s, id) then s.nodes[s.tokenOf[id]].c.lastReceivedSeq else 0
  }

  /** outbox is what was sent after some acknowledged point, and that point was reached by the receiver. */
  ghost predicate Tail(outbox: seq<WireMessage>, sent: seq<WireMessage>, received: nat) {
    |outbox| <= |sent| && outbox == sent[|sent| - |outbox|..] && |sent| - |outbox| <= received
  }

  /** Client to server: the accepted messages of id are the first ones its holder sent. */
  ghost predicate UpOk(s: System, id: nat) {
    && Got(s, id) <= |SentBy(s, id)|
    && From(id, Received(s)) == Deliver(id, SentBy(s, id)[..Got(s, id)])
    && (id in s.server.clients ==> s.server.clients[id].lastReceivedSeq == Got(s, id))
  }

  /** Server to client, the sending end. */
  ghost predicate DownOk(s: System, id: nat) {
    && Numbered(SentTo(s, id))
    && (id in s.sentTo ==> 1 <= id < s.server.nextId)
    && (id in s.server.clients ==>
          && s.server.clients[id].nextSendSeq == |SentTo(s, id)| + 1
          && Tail(s.server.clients[id].outbox, SentTo(s, id), Have(s, id)))
  }

  ghost predicate LinkOk(s: System, id: nat) { UpOk(s, id) && DownOk(s, id) }

  /** What a client has accepted: the first messages of what was sent to it. */
  ghost predicate Heard(n: Node, sentTo: seq<WireMessage>) {
    && n.c.lastReceivedSeq <= |sentTo|
    && n.taken + n.c.inbox == Deliver(SERVER_ID, sentTo[..n.c.lastReceivedSeq])
  }

  /** A client process: its own outbox, and what it has accepted. */
  ghost predicate NodeOk(s: System, p: nat)
    requires p in s.nodes
  {
    var n := s.nodes[p];
    && n.c.token == p
    && (n.c.id == SERVER_ID || (n.c.id in s.tokenOf && s.tokenOf[n.c.id] == p))
    && Numbered(n.sent) && n.c.nextSendSeq == |n.sent| + 1
    && Tail(n.c.outbox, n.sent, Got(s, n.c.id))
    && Heard(n, SentTo(s, n.c.id))
  }

  ghost predicate RequestOk(s: System, r: RequestPacket) {
    && r.from in s.nodes && s.nodes[r.from].c.id == r.req.id != SERVER_ID
    && Drawn(r.req.messages, s.nodes[r.from].sent)
    && r.req.ackSeq <= s.nodes[r.from].c.lastReceivedSeq
  }

  ghost predicate ReplyOk(s: System, r: ReplyPacket) {
    && r.to in s.nodes && s.nodes[r.to].c.id == r.id != SERVER_ID
    && (r.reply.status == OK ==> Drawn(r.reply.messages, SentTo(s, r.id)) && r.reply.ackSeq <= Got(s, r.id))
  }

  ghost predicate IdsOk(s: System) {
    && ServerOk(s.server)
    && (forall id :: id in s.tokenOf <==> 1 <= id < s.server.nextId)
    && (forall id <- s.server.clients :: id in s.tokenOf && s.tokenOf[id] == s.server.clients[id].token)
    && (forall j <- s.joins :: j.token in s.nodes)
    && (forall j <- s.joinReplies :: j.reply.status == OK ==> j.reply.id in s.tokenOf && s.tokenOf[j.reply.id] == j.to)
  }

  ghost predicate MessagesOk(s: System) {
    && IdsOk(s)
    && (forall id: nat :: LinkOk(s, id))
    && (forall p <- s.nodes :: NodeOk(s, p))
    && (forall r <- s.requests :: RequestOk(s, r))
    && (forall r <- s.replies :: ReplyOk(s, r))
  }

  lemma InitiallyOk(s: System)
    requires Initial(s)
    ensures MessagesOk(s)
  {
    forall p | p in s.nodes ensures NodeOk(s, p) {
      assert s.nodes[p].c == NewClient(p, s.nodes[p].c.hello, s.nodes[p].c.peerEndpoint);
    }
    assert Received(s) == [];
    assert Deliver(SERVER_ID, []) == [];
    assert forall id: nat :: Deliver(id, []) == [];
  }

  // ---- one entity at a time -----------------------------------------------------------------------

  ghost predicate Extends(longer: seq<WireMessage>, shorter: seq<WireMessage>) {
    |shorter| <= |longer| && longer[..|shorter|] == shorter
  }

  lemma UpSame(s: System, s': System, id: nat)
    requires UpOk(s, id)
    requires From(id, Received(s')) == From(id, Received(s)) && Extends(SentBy(s', id), SentBy(s, id))
    requires id in s'.server.clients ==>
      id in s.server.clients && s'.server.clients[id].lastReceivedSeq == s.server.clients[id].lastReceivedSeq
    ensures UpOk(s', id)
  {
    assert SentBy(s', id)[..Got(s, id)] == SentBy(s, id)[..Got(s, id)];
  }

  lemma DownSame(s: System, s': System, id: nat)
    requires DownOk(s, id)
    requires SentTo(s', id) == SentTo(s, id) && Have(s', id) >= Have(s, id) && s'.server.nextId >= s.server.nextId
    requires id in s'.sentTo ==> id in s.sentTo
    requires id in s'.server.clients ==>
      && id in s.server.clients
      && s'.server.clients[id].nextSendSeq == s.server.clients[id].nextSendSeq
      && s'.server.clients[id].outbox == s.server.clients[id].outbox
    ensures DownOk(s', id)
  {
  }

  /** The parts of a client the message properties look at. */
  ghost predicate SameMessages(a: Node, b: Node) {
    && a.c.token == b.c.token && a.c.id == b.c.id && a.sent == b.sent && a.c.outbox == b.c.outbox
    && a.c.nextSendSeq == b.c.nextSendSeq && a.c.lastReceivedSeq == b.c.lastReceivedSeq
    && a.taken + a.c.inbox == b.taken + b.c.inbox
  }

  lemma NodeSame(s: System, s': System, p: nat)
    requires p in s.nodes && p in s'.nodes && NodeOk(s, p) && SameMessages(s.nodes[p], s'.nodes[p])
    requires Got(s', s.nodes[p].c.id) >= Got(s, s.nodes[p].c.id)
    requires Extends(SentTo(s', s.nodes[p].c.id), SentTo(s, s.nodes[p].c.id))
    requires forall id <- s.tokenOf :: id in s'.tokenOf && s'.tokenOf[id] == s.tokenOf[id]
    ensures NodeOk(s', p)
  {
    var n := s.nodes[p].c.lastReceivedSeq;
    assert SentTo(s', s.nodes[p].c.id)[..n] == SentTo(s, s.nodes[p].c.id)[..n];
  }

  /** Histories only grow, so packets already in the network stay good. */
  ghost predicate Grows(s: System, s': System) {
    && (forall p <- s.nodes :: p in s'.nodes
          && Extends(s'.nodes[p].sent, s.nodes[p].sent)
          && s'.nodes[p].c.lastReceivedSeq >= s.nodes[p].c.lastReceivedSeq
          && (s.nodes[p].c.id != SERVER_ID ==> s'.nodes[p].c.id == s.nodes[p].c.id))
    && (forall id: nat :: Extends(SentTo(s', id), SentTo(s, id)))
    && (forall id: nat :: Got(s', id) >= Got(s, id))
  }

  lemma DrawnGrows(ms: seq<WireMessage>, sent: seq<WireMessage>, more: seq<WireMessage>)
    requires Drawn(ms, sent) && Extends(more, sent)
    ensures Drawn(ms, more)
  {
    forall i | 0 <= i < |ms| ensures 1 <= ms[i].number <= |more| && more[ms[i].number - 1] == ms[i] {
      assert more[..|sent|][ms[i].number - 1] == sent[ms[i].number - 1];
    }
  }

  lemma OldRequest(s: System, s': System, r: RequestPacket)
    requires Grows(s, s') && RequestOk(s, r)
    ensures RequestOk(s', r)
  {
    DrawnGrows(r.req.messages, s.nodes[r.from].sent, s'.nodes[r.from].sent);
  }

  lemma OldReply(s: System, s': System, r: ReplyPacket)
    requires Grows(s, s') && ReplyOk(s, r)
    ensures ReplyOk(s', r)
  {
    if r.reply.status == OK {
      assert Extends(SentTo(s', r.id), SentTo(s, r.id)) && Got(s', r.id) >= Got(s, r.id);
      DrawnGrows(r.reply.messages, SentTo(s, r.id), SentTo(s', r.id));
    }
  }

  lemma OldPackets(s: System, s': System)
    requires Grows(s, s') && (forall r <- s.requests :: RequestOk(s, r)) && (forall r <- s.replies :: ReplyOk(s, r))
    ensures (forall r <- s.requests :: RequestOk(s', r)) && (forall r <- s.replies :: ReplyOk(s', r))
  {
    forall r | r in s.requests ensures RequestOk(s', r) {
      OldRequest(s, s', r);
    }
    forall r | r in s.replies ensures ReplyOk(s', r) {
      OldReply(s, s', r);
    }
  }

  // ---- what a step may leave alone ------------------------------------------------------------------

  ghost predicate SameSlotMessages(a: Slot, b: Slot) {
    && a.token == b.token && a.outbox == b.outbox
    && a.nextSendSeq == b.nextSendSeq && a.lastReceivedSeq == b.lastReceivedSeq
  }

  /** Nothing moved between the server and id, except that the holder may have sent or heard more. */
  ghost predicate LinkKept(s: System, s': System, id: nat) {
    && From(id, Received(s')) == From(id, Received(s)) && Extends(SentBy(s', id), SentBy(s, id))
    && SentTo(s', id) == SentTo(s, id) && Have(s', id) >= Have(s, id)
    && (id in s'.sentTo ==> id in s.sentTo)
    && (id in s'.server.clients ==>
          id in s.server.clients && SameSlotMessages(s'.server.clients[id], s.server.clients[id]))
  }

  lemma LinkSame(s: System, s': System, id: nat)
    requires LinkOk(s, id) && LinkKept(s, s', id) && s'.server.nextId >= s.server.nextId
    ensures LinkOk(s', id)
  {
    UpSame(s, s', id);
    DownSame(s, s', id);
  }

  ghost predicate NodeKept(s: System, s': System, p: nat)
    requires p in s.nodes
  {
    && p in s'.nodes && SameMessages(s.nodes[p], s'.nodes[p])
    && (forall id <- s.tokenOf :: id in s'.tokenOf && s'.tokenOf[id] == s.tokenOf[id])
  }

  /** A step keeps the invariant if each link and each client either was left alone or is good again, and
      what is new in the network is good. */
  lemma Kept(s: System, s': System)
    requires MessagesOk(s) && IdsOk(s') && Grows(s, s') && s'.server.nextId >= s.server.nextId
    requires forall id: nat :: LinkKept(s, s', id) || LinkOk(s', id)
    requires s'.nodes.Keys == s.nodes.Keys && forall p <- s.nodes :: NodeKept(s, s', p) || NodeOk(s', p)
    requires forall r <- s'.requests :: r in s.requests || RequestOk(s', r)
    requires forall r <- s'.replies :: r in s.replies || ReplyOk(s', r)
    ensures MessagesOk(s')
  {
    forall id: nat ensures LinkOk(s', id) {
      if LinkKept(s, s', id) {
        LinkSame(s, s', id);
      }
    }
    forall p | p in s'.nodes ensures NodeOk(s', p) {
      if !NodeOk(s', p) {
        NodeSame(s, s', p);
      }
    }
    OldPackets(s, s');
  }

  // ---- the client's steps -------------------------------------------------------------------------

  ghost predicate OneNode(s: System, s': System, p: nat) {
    && p in s.nodes && p in s'.nodes
    && s'.server == s.server && s'.delivered == s.delivered && s'.sentTo == s.sentTo && s'.tokenOf == s.tokenOf
    && s'.joinReplies == s.joinReplies && s'.replies == s.replies
    && s'.nodes == s.nodes[p := s'.nodes[p]]
  }

  ghost predicate Forward(a: Node, b: Node) {
    Extends(b.sent, a.sent) && b.c.id == a.c.id && b.c.lastReceivedSeq >= a.c.lastReceivedSeq
  }

  lemma MoveGrows(s: System, s': System, p: nat)
    requires IdsOk(s) && OneNode(s, s', p) && s'.joins == s.joins && Forward(s.nodes[p], s'.nodes[p])
    ensures IdsOk(s') && Grows(s, s')
  {
  }

  lemma MoveKeepsLink(s: System, s': System, p: nat, id: nat)
    requires OneNode(s, s', p) && Forward(s.nodes[p], s'.nodes[p])
    ensures LinkKept(s, s', id)
  {
    assert Received(s') == Received(s) && SentTo(s', id) == SentTo(s, id);
    assert Extends(SentBy(s', id), SentBy(s, id)) && Have(s', id) >= Have(s, id);
  }

  /** Client p of a running system moved forward and is still good itself. */
  lemma NodeMoves(s: System, s': System, p: nat)
    requires MessagesOk(s) && OneNode(s, s', p) && s'.joins == s.joins && Forward(s.nodes[p], s'.nodes[p])
    requires NodeOk(s', p) && forall r <- s'.requests :: r in s.requests || RequestOk(s', r)
    ensures MessagesOk(s')
  {
    MoveGrows(s, s', p);
    forall id: nat ensures LinkKept(s, s', id) {
      MoveKeepsLink(s, s', p, id);
    }
    forall q | q in s.nodes ensures NodeKept(s, s', q) || NodeOk(s', q) {
      assert q != p ==> s'.nodes[q] == s.nodes[q];
    }
    Kept(s, s');
  }

  lemma QuietNode(s: System, s': System, p: nat)
    requires MessagesOk(s) && OneNode(s, s', p) && s'.joins == s.joins && SameMessages(s.nodes[p], s'.nodes[p])
    requires forall r <- s'.requests :: r in s.requests || RequestOk(s', r)
    ensures MessagesOk(s')
  {
    QuietGood(s, s', p);
    NodeMoves(s, s', p);
  }

  lemma QuietGood(s: System, s': System, p: nat)
    requires OneNode(s, s', p) && NodeOk(s, p) && SameMessages(s.nodes[p], s'.nodes[p])
    ensures NodeOk(s', p) && Forward(s.nodes[p], s'.nodes[p])
  {
    assert Received(s') == Received(s);
    NodeSame(s, s', p);
  }

  lemma QueuedTail(outbox: seq<WireMessage>, sent: seq<WireMessage>, received: nat, m: WireMessage)
    requires Tail(outbox, sent, received) && Numbered(sent) && m.number == |sent| + 1
    ensures Tail(outbox + [m], sent + [m], received) && Numbered(sent + [m])
  {
    var a := |sent| - |outbox|;
    assert (sent + [m])[a..] == sent[a..] + [m];
  }

  ghost predicate Sends(n: Node, n': Node, m: WireMessage) {
    && m.number == n.c.nextSendSeq && n'.sent == n.sent + [m]
    && n'.c == n.c.(outbox := n.c.outbox + [m], nextSendSeq := n.c.nextSendSeq + 1) && n'.taken == n.taken
  }

  lemma SendKeeps(s: System, s': System, p: nat, m: WireMessage)
    requires MessagesOk(s) && OneNode(s, s', p) && s'.joins == s.joins && s'.requests == s.requests
    requires Sends(s.nodes[p], s'.nodes[p], m)
    ensures MessagesOk(s')
  {
    SenderGood(s, s', p, m);
    NodeMoves(s, s', p);
  }

  lemma SenderGood(s: System, s': System, p: nat, m: WireMessage)
    requires OneNode(s, s', p) && Sends(s.nodes[p], s'.nodes[p], m) && NodeOk(s, p)
    ensures NodeOk(s', p)
  {
    var n := s.nodes[p];
    QueuedTail(n.c.outbox, n.sent, Got(s, n.c.id), m);
    assert Received(s') == Received(s);
  }

  /** An exchange starts with a request drawn from the outbox. */
  lemma StartKeeps(s: System, s': System, p: nat, req: UpdateRequest)
    requires MessagesOk(s) && OneNode(s, s', p) && s'.joins == s.joins && SameMessages(s.nodes[p], s'.nodes[p])
    requires req.id == s.nodes[p].c.id != SERVER_ID && req.messages == s.nodes[p].c.outbox
    requires req.ackSeq == s.nodes[p].c.lastReceivedSeq
    requires s'.requests == s.requests + {RequestPacket(p, s.nodes[p].nextNonce, req, SceneNumber(s.nodes[p], req))}
    ensures MessagesOk(s')
  {
    var n := s.nodes[p];
    assert NodeOk(s, p);
    TailIsDrawn(n.sent, |n.sent| - |n.c.outbox|);
    QuietNode(s, s', p);
  }

  lemma HearNothing(n: Node, packet: ReplyPacket)
    requires packet.reply.status != OK
    ensures SameMessages(n, Hear(n, packet))
  {
  }

  lemma HearReplyKeeps(s: System, s': System, packet: ReplyPacket)
    requires MessagesOk(s) && packet in s.replies && packet.to in s.nodes
    requires s' == s.(nodes := s.nodes[packet.to := Hear(s.nodes[packet.to], packet)])
    ensures MessagesOk(s')
  {
    var p := packet.to;
    if packet.reply.status != OK {
      HearNothing(s.nodes[p], packet);
      QuietNode(s, s', p);
    } else {
      assert LinkOk(s, packet.id) && LinkOk(s, s.nodes[p].c.id);
      HearGood(s, s', p, packet);
      NodeMoves(s, s', p);
    }
  }

  lemma HearExtends(n: Node, packet: ReplyPacket, sentTo: seq<WireMessage>)
    requires Heard(n, sentTo) && Drawn(packet.reply.messages, sentTo) && packet.reply.status == OK
    ensures Heard(Hear(n, packet), sentTo) && Forward(n, Hear(n, packet))
  {
    var last := n.c.lastReceivedSeq;
    AcceptedContinues(last, packet.reply.messages, sentTo);
    var got := Accepted(last, packet.reply.messages);
    assert sentTo[..last + |got|] == sentTo[..last] + got;
    DeliverConcat(SERVER_ID, sentTo[..last], got);
    var n' := Hear(n, packet);
    assert n'.c.inbox == n.c.inbox + Deliver(SERVER_ID, got);
    assert n'.taken + n'.c.inbox == (n.taken + n.c.inbox) + Deliver(SERVER_ID, got);
  }

  lemma HearGood(s: System, s': System, p: nat, packet: ReplyPacket)
    requires p in s.nodes && NodeOk(s, p) && ReplyOk(s, packet) && packet.to == p && packet.reply.status == OK
    requires s' == s.(nodes := s.nodes[p := Hear(s.nodes[p], packet)]) && LinkOk(s, packet.id)
    ensures NodeOk(s', p) && Forward(s.nodes[p], s'.nodes[p])
  {
    var n := s.nodes[p];
    HearExtends(n, packet, SentTo(s, n.c.id));
    AckKeepsTail(n.sent, n.c.outbox, packet.reply.ackSeq, Got(s, n.c.id));
    assert Received(s') == Received(s);
  }

  lemma AckKeepsTail(sent: seq<WireMessage>, outbox: seq<WireMessage>, ack: nat, received: nat)
    requires Numbered(sent) && Tail(outbox, sent, received) && ack <= received <= |sent|
    ensures Tail(Unacked(outbox, ack), sent, received)
  {
    UnackedIsTail(sent, |sent| - |outbox|, ack);
  }

  /** The first Ok join reply gives a client its id; it has then heard nothing, and its history starts to count. */
  lemma HearJoinKeeps(s: System, s': System, heard: JoinReplyPacket)
    requires MessagesOk(s) && Named(s, s', heard)
    ensures MessagesOk(s')
  {
    assert NodeOk(s', heard.to) by {
      assert NodeOk(s, heard.to) && LinkOk(s, SERVER_ID);
      NamedGood(s, s', heard);
    }
    NamedGrows(s, s', heard);
    Kept(s, s');
  }

  ghost predicate Named(s: System, s': System, heard: JoinReplyPacket) {
    && IdsOk(s) && heard in s.joinReplies && heard.to in s.nodes && heard.reply.status == OK
    && s.nodes[heard.to].c.id == SERVER_ID
    && s' == s.(nodes := s.nodes[heard.to := s.nodes[heard.to].(c := JoinAnswered(s.nodes[heard.to].c, heard.reply))])
  }

  lemma NamedGood(s: System, s': System, heard: JoinReplyPacket)
    requires Named(s, s', heard) && NodeOk(s, heard.to) && LinkOk(s, SERVER_ID)
    ensures NodeOk(s', heard.to) && s.nodes[heard.to].c.lastReceivedSeq == 0
  {
    assert SentTo(s, SERVER_ID) == [] && SentBy(s, SERVER_ID) == [];
    assert SentTo(s', heard.reply.id)[..0] == SentTo(s, SERVER_ID)[..0];
    assert Received(s') == Received(s);
  }

  lemma NamedGrows(s: System, s': System, heard: JoinReplyPacket)
    requires Named(s, s', heard)
    ensures IdsOk(s') && Grows(s, s') && (forall id: nat :: LinkKept(s, s', id))
    ensures forall p <- s.nodes :: p == heard.to || NodeKept(s, s', p)
  {
    assert Received(s') == Received(s) && s'.sentTo == s.sentTo;
    forall id: nat ensures LinkKept(s, s', id) {
      assert id != heard.reply.id ==> SentBy(s', id) == SentBy(s, id) && Have(s', id) == Have(s, id);
    }
  }

  lemma AskJoinKeeps(s: System, s': System, p: nat)
    requires MessagesOk(s) && p in s.nodes && s' == s.(joins := s.joins + {JoinRequestOf(s.nodes[p].c)})
    ensures MessagesOk(s')
  {
    assert NodeOk(s, p);
    AllStill(s, s');
    Kept(s, s');
  }

  /** Clients, counters and histories are as before. */
  lemma AllStill(s: System, s': System)
    requires s'.nodes == s.nodes && s'.tokenOf == s.tokenOf && s'.sentTo == s.sentTo && Received(s') == Received(s)
    requires forall id <- s'.server.clients ::
      id in s.server.clients && SameSlotMessages(s'.server.clients[id], s.server.clients[id])
    ensures Grows(s, s') && (forall id: nat :: LinkKept(s, s', id)) && (forall p <- s.nodes :: NodeKept(s, s', p))
  {
    forall id: nat ensures LinkKept(s, s', id) {
      assert SentBy(s', id) == SentBy(s, id) && Have(s', id) == Have(s, id) && SentTo(s', id) == SentTo(s, id);
    }
    assert forall id: nat :: Got(s', id) == Got(s, id) && SentTo(s', id) == SentTo(s, id);
  }

  // ---- the server's steps -------------------------------------------------------------------------

  /** A change of the server that keeps the message state of every remaining slot. */
  lemma QuietServer(s: System, s': System)
    requires MessagesOk(s) && s' == s.(server := s'.server, delivered := s'.delivered, published := s'.published)
    requires ServerOk(s'.server) && s'.server.nextId == s.server.nextId && Received(s') == Received(s)
    requires forall id <- s'.server.clients ::
      id in s.server.clients && SameSlotMessages(s'.server.clients[id], s.server.clients[id])
    ensures MessagesOk(s')
  {
    AllStill(s, s');
    Kept(s, s');
  }

  lemma TimeOutKeeps(s: System, id: nat)
    requires MessagesOk(s)
    ensures MessagesOk(Next(s, TimeOut(id)))
  {
    QuietServer(s, s.(server := Retire(s.server, id)));
  }

  lemma ServerQuietKeeps(s: System, step: Step)
    requires MessagesOk(s)
    requires step.ServerPublish? || step.ServerDrain? || step.ServerDrainRoster? || step.ServerDrainStates? || step.ServerSwapDeparted?
    ensures MessagesOk(Next(s, step))
  {
    var s' := Next(s, step);
    assert Received(s') == Received(s);
    QuietServer(s, s');
  }

  lemma JoinKeeps(s: System, join: JoinRequest, port: Option<int>)
    requires MessagesOk(s) && join in s.joins
    ensures MessagesOk(JoinServed(s, join, port))
  {
    var s' := JoinServed(s, join, port);
    if s'.server.nextId == s.server.nextId {
      OldHolder(s, s', join, port);
      AllStill(s, s');
    } else {
      forall p | p in s.nodes ensures s.nodes[p].c.id != s.server.nextId {
        assert NodeOk(s, p);
      }
      assert LinkOk(s, s.server.nextId);
      Admits(s, s', join, port);
      NewLink(s, s', join.token);
      NewHolder(s, s', join.token);
    }
    Kept(s, s');
  }

  lemma OldHolder(s: System, s': System, join: JoinRequest, port: Option<int>)
    requires IdsOk(s) && s' == JoinServed(s, join, port) && s'.server.nextId == s.server.nextId
    ensures s' == s.(joinReplies := s'.joinReplies) && IdsOk(s')
  {
  }

  /** A new client: its counters start, and nobody ever held its id. */
  ghost predicate Admitted(s: System, s': System, token: nat) {
    var t := s.server.nextId;
    && t in s'.server.clients && s'.server.clients == s.server.clients[t := s'.server.clients[t]]
    && s'.server.clients[t].lastReceivedSeq == 0 && s'.server.clients[t].nextSendSeq == 1 && s'.server.clients[t].outbox == []
    && s'.server.nextId == t + 1 && s'.tokenOf == s.tokenOf[t := token]
    && s'.sentTo == s.sentTo && s'.nodes == s.nodes && Received(s') == Received(s)
  }

  lemma Admits(s: System, s': System, join: JoinRequest, port: Option<int>)
    requires IdsOk(s) && s' == JoinServed(s, join, port) && s'.server.nextId != s.server.nextId
    ensures IdsOk(s') && Admitted(s, s', join.token)
  {
  }

  lemma NewLink(s: System, s': System, token: nat)
    requires Admitted(s, s', token) && s.server.nextId !in s.tokenOf && s.server.nextId >= 1
    requires LinkOk(s, s.server.nextId) && (token in s.nodes ==> s.nodes[token].c.id != s.server.nextId)
    ensures LinkOk(s', s.server.nextId)
  {
    var t := s.server.nextId;
    assert !Claimed(s, t) && !Claimed(s', t);
    assert Received(s') == Received(s) && |From(t, Received(s))| == 0;
    assert SentTo(s', t) == SentTo(s, t) == [];
  }

  lemma NewHolder(s: System, s': System, token: nat)
    requires IdsOk(s) && Admitted(s, s', token)
    ensures Grows(s, s')
    ensures forall id: nat :: id == s.server.nextId || LinkKept(s, s', id)
    ensures forall p <- s.nodes :: NodeKept(s, s', p)
  {
    forall id: nat | id != s.server.nextId ensures LinkKept(s, s', id) {
      assert SentBy(s', id) == SentBy(s, id) && Have(s', id) == Have(s, id) && SentTo(s', id) == SentTo(s, id);
    }
    assert forall id: nat :: Got(s', id) == Got(s, id) && SentTo(s', id) == SentTo(s, id);
  }

  /** The server queues one more message for each client in to. */
  ghost predicate Queued(s: System, s': System, to: set<nat>, kind: nat, payload: Bytes, tick: int) {
    && to <= s.server.clients.Keys == s'.server.clients.Keys
    && s' == s.(server := s.server.(clients := s'.server.clients), sentTo := s'.sentTo)
    && s'.sentTo.Keys == s.sentTo.Keys + to
    && (forall id <- s.server.clients ::
          s'.server.clients[id] == if id in to then Queue(s.server.clients[id], kind, payload, tick) else s.server.clients[id])
    && (forall id: nat :: SentTo(s', id) == SentTo(s, id)
          + if id in to then [WireMessage(s.server.clients[id].nextSendSeq, kind, tick, payload)] else [])
  }

  lemma QueuedDown(s: System, s': System, id: nat, m: WireMessage)
    requires DownOk(s, id) && id in s.server.clients && id in s'.server.clients && 1 <= id < s'.server.nextId
    requires m.number == s.server.clients[id].nextSendSeq && SentTo(s', id) == SentTo(s, id) + [m]
    requires s'.server.clients[id].outbox == s.server.clients[id].outbox + [m]
    requires s'.server.clients[id].nextSendSeq == m.number + 1 && Have(s', id) == Have(s, id)
    ensures DownOk(s', id)
  {
    QueuedTail(s.server.clients[id].outbox, SentTo(s, id), Have(s, id), m);
  }

  lemma QueuedLink(s: System, s': System, to: set<nat>, kind: nat, payload: Bytes, tick: int, id: nat)
    requires IdsOk(s) && Queued(s, s', to, kind, payload, tick) && LinkOk(s, id)
    ensures LinkKept(s, s', id) || LinkOk(s', id)
  {
    assert Received(s') == Received(s) && SentBy(s', id) == SentBy(s, id) && Have(s', id) == Have(s, id);
    if id in to {
      QueuedDown(s, s', id, WireMessage(s.server.clients[id].nextSendSeq, kind, tick, payload));
      assert UpOk(s', id);
    }
  }

  lemma QueuedKeeps(s: System, s': System, to: set<nat>, kind: nat, payload: Bytes, tick: int)
    requires MessagesOk(s) && Queued(s, s', to, kind, payload, tick)
    ensures MessagesOk(s')
  {
    forall id: nat ensures LinkKept(s, s', id) || LinkOk(s', id) {
      QueuedLink(s, s', to, kind, payload, tick, id);
    }
    QueuedGrows(s, s', to, kind, payload, tick);
    Kept(s, s');
  }

  lemma QueuedGrows(s: System, s': System, to: set<nat>, kind: nat, payload: Bytes, tick: int)
    requires IdsOk(s) && Queued(s, s', to, kind, payload, tick)
    ensures IdsOk(s') && Grows(s, s') && forall p <- s.nodes :: NodeKept(s, s', p)
  {
    assert Received(s') == Received(s);
  }

  lemma SendQueues(s: System, to: nat, kind: nat, payload: Bytes, tick: int)
    requires to in s.server.clients
    ensures Queued(s, Next(s, ServerSend(to, kind, payload, tick)), {to}, kind, payload, tick)
  {
  }

  lemma BroadcastQueues(s: System, kind: nat, payload: Bytes, tick: int)
    ensures Queued(s, Next(s, ServerBroadcast(kind, payload, tick)), s.server.clients.Keys, kind, payload, tick)
  {
  }

  // ---- one update handled -------------------------------------------------------------------------

  lemma DeliverFurther(id: nat, sent: seq<WireMessage>, n: nat, got: seq<WireMessage>)
    requires n + |got| <= |sent| && got == sent[n..n + |got|]
    ensures Deliver(id, sent[..n]) + Deliver(id, got) == Deliver(id, sent[..n + |got|])
  {
    assert sent[..n + |got|] == sent[..n] + got;
    DeliverConcat(id, sent[..n], got);
  }

  /** The receiving end: whatever batch arrives, the accepted messages go on where they stopped. */
  lemma UpExtends(s: System, s': System, at: nat, got: seq<WireMessage>)
    requires UpOk(s, at) && at in s.server.clients && SentBy(s', at) == SentBy(s, at)
    requires Got(s, at) + |got| <= |SentBy(s, at)| && got == SentBy(s, at)[Got(s, at)..Got(s, at) + |got|]
    requires Received(s') == Received(s) + Deliver(at, got)
    requires at in s'.server.clients ==> s'.server.clients[at].lastReceivedSeq == s.server.clients[at].lastReceivedSeq + |got|
    ensures UpOk(s', at) && Got(s', at) == Got(s, at) + |got|
  {
    FromConcat(at, Received(s), Deliver(at, got));
    FromDelivery(at, at, got);
    DeliverFurther(at, SentBy(s, at), Got(s, at), got);
  }

  lemma OtherUp(s: System, s': System, at: nat, got: seq<WireMessage>, id: nat)
    requires Received(s') == Received(s) + Deliver(at, got) && id != at
    ensures From(id, Received(s')) == From(id, Received(s))
  {
    FromConcat(id, Received(s), Deliver(at, got));
    FromDelivery(id, at, got);
  }

  /** What handling an update of client at does to the system, before the reply enters the network. */
  ghost predicate Handled(s: System, s': System, at: nat, req: UpdateRequest, reply: UpdateReply) {
    && req.id == at && at in s.server.clients
    && s' == s.(server := s'.server, replies := s'.replies)
    && (s'.server, reply) == Update(s.server, at, req)
  }

  lemma HandledUp(s: System, s': System, at: nat, req: UpdateRequest, reply: UpdateReply)
    requires Handled(s, s', at, req, reply) && UpOk(s, at) && Drawn(req.messages, SentBy(s, at))
    ensures UpOk(s', at) && reply.ackSeq == Got(s', at) >= Got(s, at)
  {
    Updated(s.server, at, req);
    var last := s.server.clients[at].lastReceivedSeq;
    var got := Accepted(last, req.messages);
    AcceptedContinues(last, req.messages, SentBy(s, at));
    assert Received(s') == Received(s) + Deliver(at, got);
    UpExtends(s, s', at, got);
  }

  lemma HandledSlot(s: System, s': System, at: nat, req: UpdateRequest, reply: UpdateReply)
    requires Handled(s, s', at, req, reply)
    ensures reply.status == OK && reply.messages == Unacked(s.server.clients[at].outbox, req.ackSeq)
    ensures at in s'.server.clients ==>
      && s'.server.clients[at].outbox == reply.messages
      && s'.server.clients[at].nextSendSeq == s.server.clients[at].nextSendSeq
    ensures s'.server.nextId == s.server.nextId
    ensures SentTo(s', at) == SentTo(s, at) && Have(s', at) == Have(s, at)
  {
    Updated(s.server, at, req);
  }

  lemma HandledDown(s: System, s': System, at: nat, ack: nat, rest: seq<WireMessage>)
    requires DownOk(s, at) && at in s.server.clients && ack <= Have(s, at) <= |SentTo(s, at)|
    requires rest == Unacked(s.server.clients[at].outbox, ack) && s'.sentTo == s.sentTo
    requires at in s'.server.clients ==>
      && s'.server.clients[at].outbox == rest
      && s'.server.clients[at].nextSendSeq == s.server.clients[at].nextSendSeq
    requires s'.server.nextId == s.server.nextId && Have(s', at) == Have(s, at)
    ensures DownOk(s', at) && Drawn(rest, SentTo(s, at))
  {
    AckKeepsTail(SentTo(s, at), s.server.clients[at].outbox, ack, Have(s, at));
    TailIsDrawn(SentTo(s, at), |SentTo(s, at)| - |rest|);
  }

  lemma HandledOthers(s: System, s': System, at: nat, req: UpdateRequest, reply: UpdateReply, id: nat)
    requires Handled(s, s', at, req, reply) && id != at
    ensures LinkKept(s, s', id) && Got(s', id) == Got(s, id)
  {
    Updated(s.server, at, req);
    var got := Accepted(s.server.clients[at].lastReceivedSeq, req.messages);
    assert Received(s') == Received(s) + Deliver(at, got);
    OtherUp(s, s', at, got, id);
  }

  lemma HandledGrows(s: System, s': System, at: nat, req: UpdateRequest, reply: UpdateReply)
    requires IdsOk(s) && Handled(s, s', at, req, reply) && Got(s', at) >= Got(s, at)
    ensures IdsOk(s') && Grows(s, s') && s'.server.nextId == s.server.nextId
    ensures (forall id: nat :: id == at || LinkKept(s, s', id)) && (forall p <- s.nodes :: NodeKept(s, s', p))
  {
    Updated(s.server, at, req);
    forall id: nat | id != at ensures LinkKept(s, s', id) && Got(s', id) == Got(s, id) {
      HandledOthers(s, s', at, req, reply, id);
    }
    assert forall id: nat :: SentTo(s', id) == SentTo(s, id);
  }

  lemma UpdateKeeps(s: System, request: RequestPacket, at: nat)
    requires MessagesOk(s) && request in s.requests
    ensures MessagesOk(UpdateServed(s, request, at))
  {
    var req, s' := request.req, UpdateServed(s, request, at);
    if req.id != at || at !in s.server.clients {
      AllStill(s, s');
      Kept(s, s');
    } else {
      HandledKeeps(s, s', at, request, Update(s.server, at, req).1);
    }
  }

  lemma HandledKeeps(s: System, s': System, at: nat, request: RequestPacket, reply: UpdateReply)
    requires MessagesOk(s) && request in s.requests && Handled(s, s', at, request.req, reply)
    requires forall r <- s'.replies :: r in s.replies || (r.to == request.from && r.id == at && r.reply == reply)
    ensures MessagesOk(s')
  {
    var req := request.req;
    assert LinkOk(s, at) && RequestOk(s, request) && NodeOk(s, request.from);
    HandledUp(s, s', at, req, reply);
    HandledSlot(s, s', at, req, reply);
    HandledDown(s, s', at, req.ackSeq, reply.messages);
    HandledGrows(s, s', at, req, reply);
    Kept(s, s');
  }

  // ---- every step, every run ----------------------------------------------------------------------

  /** What a client does to itself without touching its messages. */
  ghost predicate Private(step: Step) {
    step.AppSubmit? || step.AppPoll? || step.AppDrain? || step.AppDrainRoster? || step.AppTakeSnapshot? || step.GiveUp?
  }

  lemma PrivateIsQuiet(s: System, step: Step)
    requires Enabled(s, step) && Private(step)
    ensures var s' := Next(s, step);
      OneNode(s, s', step.p) && s'.joins == s.joins && s'.requests == s.requests
      && SameMessages(s.nodes[step.p], s'.nodes[step.p])
  {
  }

  lemma PrivateKeeps(s: System, s': System, p: nat)
    requires MessagesOk(s) && OneNode(s, s', p) && s'.joins == s.joins && s'.requests == s.requests
    requires SameMessages(s.nodes[p], s'.nodes[p])
    ensures MessagesOk(s')
  {
    QuietNode(s, s', p);
  }

  lemma AppSendKeeps(s: System, p: nat, kind: nat, payload: Bytes, tick: int)
    requires MessagesOk(s) && p in s.nodes
    ensures MessagesOk(Next(s, AppSend(p, kind, payload, tick)))
  {
    var s' := Next(s, AppSend(p, kind, payload, tick));
    SendKeeps(s, s', p, WireMessage(s.nodes[p].c.nextSendSeq, kind, tick, payload));
  }

  lemma StartUpdateKeeps(s: System, p: nat)
    requires MessagesOk(s) && Enabled(s, StartUpdate(p))
    ensures MessagesOk(Next(s, StartUpdate(p)))
  {
    StartKeeps(s, Next(s, StartUpdate(p)), p, TakeRequest(s.nodes[p].c).1);
  }

  lemma StartLeaveKeeps(s: System, p: nat)
    requires MessagesOk(s) && Enabled(s, StartLeave(p))
    ensures MessagesOk(Next(s, StartLeave(p)))
  {
    StartKeeps(s, Next(s, StartLeave(p)), p, BuildRequest(s.nodes[p].c, LEAVE));
  }

  lemma JoiningKeeps(s: System, step: Step)
    requires MessagesOk(s) && Enabled(s, step) && (step.AskJoin? || step.ServeJoin? || step.HearJoin?)
    ensures MessagesOk(Next(s, step))
  {
    var s' := Next(s, step);
    match step
    case AskJoin(p) => AskJoinKeeps(s, s', p);
    case ServeJoin(join, port) => JoinKeeps(s, join, port);
    case HearJoin(heard) =>
      var n := s.nodes[heard.to];
      if n.c.id == SERVER_ID && heard.reply.status == OK {
        HearJoinKeeps(s, s', heard);
      } else {
        assert s'.nodes == s.nodes;
      }
  }

  lemma StepKeeps(s: System, step: Step)
    requires MessagesOk(s) && Enabled(s, step)
    ensures MessagesOk(Next(s, step))
  {
    match step
    case AppSend(p, kind, payload, tick) => AppSendKeeps(s, p, kind, payload, tick);
    case StartUpdate(p) => StartUpdateKeeps(s, p);
    case StartLeave(p) => StartLeaveKeeps(s, p);
    case HearReply(packet) => HearReplyKeeps(s, Next(s, step), packet);
    case AskJoin(_) => JoiningKeeps(s, step);
    case ServeJoin(_, _) => JoiningKeeps(s, step);
    case HearJoin(_) => JoiningKeeps(s, step);
    case ServeUpdate(request, at) => UpdateKeeps(s, request, at);
    case TimeOut(id) => TimeOutKeeps(s, id);
    case ServerSend(to, kind, payload, tick) =>
      if to in s.server.clients {
        SendQueues(s, to, kind, payload, tick);
        QueuedKeeps(s, Next(s, step), {to}, kind, payload, tick);
      }
    case ServerBroadcast(kind, payload, tick) =>
      BroadcastQueues(s, kind, payload, tick);
      QueuedKeeps(s, Next(s, step), s.server.clients.Keys, kind, payload, tick);
    case ServerPublish(_, _) => ServerQuietKeeps(s, step);
    case ServerDrain => ServerQuietKeeps(s, step);
    case ServerDrainRoster => ServerQuietKeeps(s, step);
    case ServerDrainStates => ServerQuietKeeps(s, step);
    case ServerSwapDeparted => ServerQuietKeeps(s, step);
    case _ =>
      PrivateIsQuiet(s, step);
      PrivateKeeps(s, Next(s, step), step.p);
  }

  lemma {:induction false} RunKeeps(s: System, steps: seq<Step>)
    requires MessagesOk(s) && Legal(s, steps, false)
    ensures MessagesOk(After(s, steps))
    decreases |steps|
  {
    if steps != [] {
      StepKeeps(s, steps[0]);
      RunKeeps(Next(s, steps[0]), steps[1..]);
    }
  }

  // ---- the theorems -------------------------------------------------------------------------------

  /** Exactly once, in order, in both directions, at every point of every run: what each side has accepted
      is exactly the first so many messages the other side sent, and each outbox is exactly what was sent
      after some point that the receiver has already passed. */
  lemma ExactlyOnce(s: System, steps: seq<Step>, p: nat)
    requires Initial(s) && Legal(s, steps, false)
    requires p in After(s, steps).nodes
    ensures var t := After(s, steps);
      var n := t.nodes[p];
      var id, sent, sentTo := n.c.id, n.sent, SentTo(t, n.c.id);
      id != SERVER_ID ==>
        && Numbered(sent) && Numbered(sentTo)
        && (var got := From(id, Received(t));
            && |got| <= |sent| && InStep(n.c.outbox, sent, |got|)
            && (id in t.server.clients ==> t.server.clients[id].lastReceivedSeq == |got|)
            && forall i :: 0 <= i < |got| ==>
                 got[i].from == id && got[i].kind == sent[i].kind && got[i].tick == sent[i].tick && got[i].payload == sent[i].payload)
        && (var got := n.taken + n.c.inbox;
            && |got| == n.c.lastReceivedSeq <= |sentTo|
            && forall i :: 0 <= i < |got| ==>
                 got[i].from == SERVER_ID && got[i].kind == sentTo[i].kind && got[i].tick == sentTo[i].tick && got[i].payload == sentTo[i].payload)
        && (id in t.server.clients ==> InStep(t.server.clients[id].outbox, sentTo, n.c.lastReceivedSeq))
  {
    InitiallyOk(s);
    RunKeeps(s, steps);
    var t := After(s, steps);
    assert NodeOk(t, p) && LinkOk(t, t.nodes[p].c.id);
    var id := t.nodes[p].c.id;
    if id != SERVER_ID {
      assert Claimed(t, id);
      DeliverArrives(id, SentBy(t, id)[..Got(t, id)]);
      DeliverArrives(SERVER_ID, SentTo(t, id)[..t.nodes[p].c.lastReceivedSeq]);
    }
  }

  /** An id belongs to one client process for the whole session. */
  lemma IdsAreOwn(s: System, steps: seq<Step>, p: nat, q: nat)
    requires Initial(s) && Legal(s, steps, false)
    requires p in After(s, steps).nodes && q in After(s, steps).nodes
    requires After(s, steps).nodes[p].c.id == After(s, steps).nodes[q].c.id != SERVER_ID
    ensures p == q
  {
    InitiallyOk(s);
    RunKeeps(s, steps);
    assert NodeOk(After(s, steps), p) && NodeOk(After(s, steps), q);
  }

  lemma QuietRoundTrip(c: ClientState, s: ServerState, sent: seq<WireMessage>, sentTo: seq<WireMessage>)
    requires c.id in s.clients && InStep(c.outbox, sent, s.clients[c.id].lastReceivedSeq)
    requires InStep(s.clients[c.id].outbox, sentTo, c.lastReceivedSeq)
    ensures var (c1, req) := TakeRequest(c);
      var (s1, reply) := Update(s, c.id, req);
      var (c2, result) := ProcessReply(c1, reply);
      && result == Done && c2.outbox == [] && c2.lastReceivedSeq == |sentTo|
      && c.id in s1.clients && s1.clients[c.id].lastReceivedSeq == |sent|
  {
    assert sent + [] == sent;
    RoundTripDelivers(c, s, sent, [], sentTo);
    var (c1, req) := TakeRequest(c);
    assert c1.(outbox := c1.outbox + []) == c1;
  }

  /** Progress from wherever a run has got to: one undisturbed exchange empties the client's outbox and
      brings both sides up to date. */
  lemma OneExchangeDelivers(s: System, steps: seq<Step>, p: nat)
    requires Initial(s) && Legal(s, steps, false)
    requires p in After(s, steps).nodes && After(s, steps).nodes[p].c.id in After(s, steps).server.clients
    ensures var t := After(s, steps);
      var n := t.nodes[p];
      var (c1, req) := TakeRequest(n.c);
      var (s1, reply) := Update(t.server, n.c.id, req);
      var (c2, result) := ProcessReply(c1, reply);
      && result == Done && c2.outbox == [] && c2.lastReceivedSeq == |SentTo(t, n.c.id)|
      && n.c.id in s1.clients && s1.clients[n.c.id].lastReceivedSeq == |n.sent|
  {
    LiveIsInStep(s, steps, p);
    var t := After(s, steps);
    QuietRoundTrip(t.nodes[p].c, t.server, t.nodes[p].sent, SentTo(t, t.nodes[p].c.id));
  }

  lemma LiveIsInStep(s: System, steps: seq<Step>, p: nat)
    requires Initial(s) && Legal(s, steps, false)
    requires p in After(s, steps).nodes && After(s, steps).nodes[p].c.id in After(s, steps).server.clients
    ensures var t := After(s, steps);
      var n := t.nodes[p];
      var slot := t.server.clients[n.c.id];
      InStep(n.c.outbox, n.sent, slot.lastReceivedSeq) && InStep(slot.outbox, SentTo(t, n.c.id), n.c.lastReceivedSeq)
  {
    ExactlyOnce(s, steps, p);
    InitiallyOk(s);
    RunKeeps(s, steps);
    assert ServerOk(After(s, steps).server);
  }
}
