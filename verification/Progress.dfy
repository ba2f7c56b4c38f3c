/** From wherever a run has got to: a join that is asked again is answered as before, three steps of one
    undisturbed exchange bring both sides up to date, snapshot included, and two steps let a client leave. */
module Progress {
  import opened Options
  import opened Wire
  import opened Protocol
  import opened Server
  import opened Client
  import opened Session
  import opened Delivery
  import opened Roster
  import opened Publishing

  // ---- joining again ----------------------------------------------------------------------------------

  /** Live clients stay who they are. */
  ghost predicate SameHolders(s: ServerState, s': ServerState) {
    forall id <- s'.clients :: id in s.clients && s'.clients[id].token == s.clients[id].token
  }

  lemma UpdateHolders(s: ServerState, at: nat, req: UpdateRequest)
    ensures SameHolders(s, Update(s, at, req).0)
  {
  }

  lemma HoldersStep(s: System, step: Step)
    requires Enabled(s, step) && !step.ServeJoin?
    ensures SameHolders(s.server, Next(s, step).server)
  {
    if step.ServeUpdate? {
      UpdateHolders(s.server, step.at, step.request.req);
    }
  }

  lemma OneHolderStep(s: System, step: Step)
    requires Enabled(s, step) && ServerOk(s.server) && OneHolder(s.server)
    ensures OneHolder(Next(s, step).server)
  {
    if step.ServeJoin? {
      JoinOutcome(s.server, step.join, step.port);
    } else {
      HoldersStep(s, step);
    }
  }

  lemma {:induction false} OneHolderRun(s: System, steps: seq<Step>)
    requires MessagesOk(s) && OneHolder(s.server) && Legal(s, steps, false)
    ensures OneHolder(After(s, steps).server)
    decreases |steps|
  {
    if steps != [] {
      StepKeeps(s, steps[0]);
      OneHolderStep(s, steps[0]);
      OneHolderRun(Next(s, steps[0]), steps[1..]);
    }
  }

  /** In every reachable state no two live clients hold the same token, so a live client that asks to join
      once more, however late, is given its own id and port, and the server does not change. */
  lemma RejoinInEveryRun(s: System, steps: seq<Step>, id: nat, req: JoinRequest, port: Option<int>)
    requires Initial(s) && Legal(s, steps, false)
    requires id in After(s, steps).server.clients && After(s, steps).server.clients[id].token == req.token
    ensures var t := After(s, steps).server;
      OneHolder(t) && Join(t, req, port) == (t, JoinReply(OK, id, t.clients[id].port))
  {
    InitiallyOk(s);
    RunKeeps(s, steps);
    OneHolderRun(s, steps);
    RejoinKeepsId(After(s, steps).server, id, req, port);
  }

  // ---- one exchange, step by step ---------------------------------------------------------------------

  /** The request client p would start now, the reply the server would give it, and the three steps. */
  ghost function RequestNow(t: System, p: nat): RequestPacket
    requires p in t.nodes
  {
    var req := TakeRequest(t.nodes[p].c).1;
    RequestPacket(p, t.nodes[p].nextNonce, req, SceneNumber(t.nodes[p], req))
  }

  ghost function ReplyNow(t: System, p: nat): ReplyPacket
    requires p in t.nodes
  {
    var id := t.nodes[p].c.id;
    ReplyPacket(p, t.nodes[p].nextNonce, id, Update(t.server, id, TakeRequest(t.nodes[p].c).1).1, t.server.snapshotVersion)
  }

  ghost function Exchange(t: System, p: nat): seq<Step>
    requires p in t.nodes
  {
    [StartUpdate(p), ServeUpdate(RequestNow(t, p), t.nodes[p].c.id), HearReply(ReplyNow(t, p))]
  }

  lemma ThreeSteps(s: System, a: Step, b: Step, c: Step, paired: bool)
    requires Enabled(s, a) && (paired ==> Paired(s, a))
    requires var s1 := Next(s, a); Enabled(s1, b) && (paired ==> Paired(s1, b))
    requires var s2 := Next(Next(s, a), b); Enabled(s2, c) && (paired ==> Paired(s2, c))
    ensures Legal(s, [a, b, c], paired) && After(s, [a, b, c]) == Next(Next(Next(s, a), b), c)
  {
    assert [a, b, c][1..] == [b, c] && [b, c][1..] == [c] && [c][1..] == [];
    var s3 := Next(Next(Next(s, a), b), c);
    assert After(s3, []) == s3 && Legal(s3, [], paired);
    assert After(Next(Next(s, a), b), [c]) == s3;
    assert After(Next(s, a), [b, c]) == s3;
  }

  lemma StartsNow(t: System, p: nat)
    requires p in t.nodes && t.nodes[p].c.id != SERVER_ID && t.nodes[p].outstanding.None?
    ensures Enabled(t, StartUpdate(p)) && Paired(t, StartUpdate(p))
    ensures var t1 := Next(t, StartUpdate(p));
      && t1.server == t.server && t1.sentTo == t.sentTo && RequestNow(t, p) in t1.requests
      && t1.nodes == t.nodes[p := Launch(t.nodes[p], TakeRequest(t.nodes[p].c).0, TakeRequest(t.nodes[p].c).1)]
  {
  }

  lemma ServesNow(t1: System, request: RequestPacket, at: nat)
    requires request in t1.requests
    ensures var t2 := Next(t1, ServeUpdate(request, at));
      && t2.nodes == t1.nodes && t2.sentTo == t1.sentTo && t2.server == Update(t1.server, at, request.req).0
      && ReplyPacket(request.from, request.nonce, request.req.id, Update(t1.server, at, request.req).1, t1.server.snapshotVersion) in t2.replies
  {
  }

  lemma HearsNow(n: Node, packet: ReplyPacket, c2: ClientState)
    requires n.outstanding.Some? && n.outstanding.value.nonce == packet.nonce
    requires ProcessReply(n.c, packet.reply) == (c2, Done)
    ensures Hear(n, packet).c == c2 && Hear(n, packet).sent == n.sent && Hear(n, packet).outstanding.None?
  {
  }

  /** The same as three steps of the run: they can be taken whenever the client is connected and waits for
      nothing, and after them both sides have everything. */
  lemma ExchangeDelivers(s: System, steps: seq<Step>, p: nat)
    requires Initial(s) && Legal(s, steps, false)
    requires var t := After(s, steps);
      p in t.nodes && t.nodes[p].c.id in t.server.clients && t.nodes[p].outstanding.None?
    ensures var t := After(s, steps);
      var t' := After(t, Exchange(t, p));
      && Legal(t, Exchange(t, p), true) && p in t'.nodes && t'.nodes[p].c.id in t'.server.clients
      && t'.nodes[p].c.outbox == [] && t'.nodes[p].outstanding.None?
      && t'.server.clients[t'.nodes[p].c.id].lastReceivedSeq == |t'.nodes[p].sent|
      && t'.nodes[p].c.lastReceivedSeq == |SentTo(t', t'.nodes[p].c.id)|
  {
    var t := After(s, steps);
    InitiallyOk(s);
    RunKeeps(s, steps);
    OneExchangeDelivers(s, steps, p);
    ThreeStepsDeliver(t, p);
  }

  lemma ThreeStepsDeliver(t: System, p: nat)
    requires p in t.nodes && t.nodes[p].c.id in t.server.clients && t.nodes[p].outstanding.None? && t.nodes[p].c.id != SERVER_ID
    requires var n := t.nodes[p];
      var (c1, req) := TakeRequest(n.c);
      var (s1, reply) := Update(t.server, n.c.id, req);
      var (c2, result) := ProcessReply(c1, reply);
      && result == Done && c2.outbox == [] && c2.id == n.c.id && c2.lastReceivedSeq == |SentTo(t, n.c.id)|
      && n.c.id in s1.clients && s1.clients[n.c.id].lastReceivedSeq == |n.sent|
    ensures var t' := After(t, Exchange(t, p));
      && Legal(t, Exchange(t, p), true) && p in t'.nodes && t'.nodes[p].c.id in t'.server.clients
      && t'.nodes[p].c.outbox == [] && t'.nodes[p].outstanding.None?
      && t'.server.clients[t'.nodes[p].c.id].lastReceivedSeq == |t'.nodes[p].sent|
      && t'.nodes[p].c.lastReceivedSeq == |SentTo(t', t'.nodes[p].c.id)|
  {
    var id := t.nodes[p].c.id;
    var (c1, req) := TakeRequest(t.nodes[p].c);
    StartsNow(t, p);
    var t1 := Next(t, StartUpdate(p));
    ServesNow(t1, RequestNow(t, p), id);
    var t2 := Next(t1, ServeUpdate(RequestNow(t, p), id));
    var packet := ReplyNow(t, p);
    assert packet in t2.replies && t2.nodes[p] == Launch(t.nodes[p], c1, req);
    HearsNow(t2.nodes[p], packet, ProcessReply(c1, packet.reply).0);
    assert Enabled(t2, HearReply(packet)) && Paired(t2, HearReply(packet));
    ThreeSteps(t, StartUpdate(p), ServeUpdate(RequestNow(t, p), id), HearReply(packet), true);
  }

  // ---- the snapshot in an exchange ----------------------------------------------------------------------

  lemma ThreeStepsShow(t: System, p: nat)
    requires p in t.nodes && t.nodes[p].c.id in t.server.clients && t.nodes[p].outstanding.None? && t.nodes[p].c.id != SERVER_ID
    ensures var n, id := t.nodes[p], t.nodes[p].c.id;
      var t' := After(t, Exchange(t, p));
      var newer := t.server.snapshotVersion != 0 && t.server.clients[id].sentSnapshotVersion != t.server.snapshotVersion;
      && Legal(t, Exchange(t, p), true) && p in t'.nodes
      && t'.nodes[p].c.latestSnapshot == (if newer then Some(ReceivedState(SERVER_ID, t.server.snapshotTick, t.server.snapshot))
                                          else n.c.latestSnapshot)
      && t'.nodes[p].versions == (if newer then n.versions + [t.server.snapshotVersion] else n.versions)
  {
    var id := t.nodes[p].c.id;
    var (c1, req) := TakeRequest(t.nodes[p].c);
    var reply := Update(t.server, id, req).1;
    SnapshotOffered(t.server, id, req);
    Updated(t.server, id, req);
    StartsNow(t, p);
    var t1 := Next(t, StartUpdate(p));
    ServesNow(t1, RequestNow(t, p), id);
    var t2 := Next(t1, ServeUpdate(RequestNow(t, p), id));
    var packet := ReplyNow(t, p);
    assert packet in t2.replies && t2.nodes[p] == Launch(t.nodes[p], c1, req);
    HearsSnapshot(t2.nodes[p], packet);
    ThreeSteps(t, StartUpdate(p), ServeUpdate(RequestNow(t, p), id), HearReply(packet), true);
  }

  lemma HearsSnapshot(n: Node, packet: ReplyPacket)
    requires n.outstanding.Some? && n.outstanding.value.nonce == packet.nonce && packet.reply.status == OK
    ensures var r := packet.reply;
      && Hear(n, packet).c.latestSnapshot == (if r.hasSnapshot then Some(ReceivedState(SERVER_ID, r.snapshotTick, r.snapshot))
                                              else n.c.latestSnapshot)
      && Hear(n, packet).versions == if r.hasSnapshot then n.versions + [packet.version] else n.versions
  {
  }

  lemma Joined(s: System, steps: seq<Step>, p: nat)
    requires Initial(s) && Legal(s, steps, true)
    requires p in After(s, steps).nodes && After(s, steps).nodes[p].c.id in After(s, steps).server.clients
    ensures After(s, steps).nodes[p].c.id != SERVER_ID
  {
    InitiallyRosterOk(s);
    RunRoster(s, steps);
  }

  lemma JustPublished(t: System, payload: Bytes, tick: int)
    requires OffersNewest(t.server, t.published)
    ensures var t' := Next(t, ServerPublish(payload, tick));
      && t'.nodes == t.nodes && t'.server.clients == t.server.clients && |t'.published| == |t.published| + 1
      && t'.server.snapshot == payload && t'.server.snapshotTick == tick && t'.server.snapshotVersion == |t'.published|
      && forall id <- t.server.clients :: t.server.clients[id].sentSnapshotVersion != t'.server.snapshotVersion
  {
  }

  /** From wherever a paired run has got to, one exchange after a publish leaves the client holding exactly what
      was published. */
  lemma PublishedIsShown(s: System, steps: seq<Step>, p: nat, payload: Bytes, tick: int)
    requires Initial(s) && Legal(s, steps, true)
    requires var t := After(s, steps);
      p in t.nodes && t.nodes[p].c.id in t.server.clients && t.nodes[p].outstanding.None?
    ensures var t := Next(After(s, steps), ServerPublish(payload, tick));
      var t' := After(t, Exchange(t, p));
      && p in t.nodes && Legal(t, Exchange(t, p), true) && p in t'.nodes
      && t'.nodes[p].c.latestSnapshot == Some(ReceivedState(SERVER_ID, tick, payload))
      && t'.nodes[p].versions == After(s, steps).nodes[p].versions + [|t.published|]
  {
    InitiallyRosterOk(s);
    InitiallyPublishOk(s);
    RunPublish(s, steps);
    JustPublished(After(s, steps), payload, tick);
    Joined(s, steps, p);
    ThreeStepsShow(Next(After(s, steps), ServerPublish(payload, tick)), p);
  }

  // ---- leaving ----------------------------------------------------------------------------------------

  ghost function LeaveNow(t: System, p: nat): RequestPacket
    requires p in t.nodes
  {
    RequestPacket(p, t.nodes[p].nextNonce, BuildRequest(t.nodes[p].c, LEAVE), 0)
  }

  lemma TwoSteps(s: System, a: Step, b: Step, paired: bool)
    requires Enabled(s, a) && (paired ==> Paired(s, a))
    requires var s1 := Next(s, a); Enabled(s1, b) && (paired ==> Paired(s1, b))
    ensures Legal(s, [a, b], paired) && After(s, [a, b]) == Next(Next(s, a), b)
  {
    assert [a, b][1..] == [b] && [b][1..] == [];
    var s2 := Next(Next(s, a), b);
    assert After(s2, []) == s2 && Legal(s2, [], paired);
    assert After(Next(s, a), [b]) == s2;
  }

  lemma LeavesNow(t: System, p: nat)
    requires p in t.nodes && t.nodes[p].c.id != SERVER_ID && t.nodes[p].outstanding.None?
    ensures Enabled(t, StartLeave(p)) && Paired(t, StartLeave(p))
    ensures Next(t, StartLeave(p)).server == t.server && LeaveNow(t, p) in Next(t, StartLeave(p)).requests
  {
  }

  /** From wherever a run has got to, a client that leaves and is heard is retired: it is gone, its scene is
      discarded, it is logged and listed as departed, and all it ever sent has arrived. */
  lemma LeaveRetires(s: System, steps: seq<Step>, p: nat)
    requires Initial(s) && Legal(s, steps, false)
    requires var t := After(s, steps);
      p in t.nodes && t.nodes[p].c.id in t.server.clients && t.nodes[p].outstanding.None?
    ensures var t := After(s, steps);
      var n, id := t.nodes[p], t.nodes[p].c.id;
      var leave := [StartLeave(p), ServeUpdate(LeaveNow(t, p), id)];
      var v, v' := t.server, After(t, leave).server;
      && Legal(t, leave, true)
      && v'.clients == v.clients - {id} && v'.states == v.states - {id} && v'.departed == v.departed + [id]
      && v'.rosterLog == v.rosterLog + [RosterEvent(LEFT, v.clients[id].info)]
      && v.clients[id].lastReceivedSeq <= |n.sent|
      && |v'.inbox| == |v.inbox| + (|n.sent| - v.clients[id].lastReceivedSeq)
  {
    var t := After(s, steps);
    var n, id := t.nodes[p], t.nodes[p].c.id;
    InitiallyOk(s);
    RunKeeps(s, steps);
    ExactlyOnce(s, steps, p);
    LeavesNow(t, p);
    var t1 := Next(t, StartLeave(p));
    StaysOrLeaves(t.server, id, LeaveNow(t, p).req);
    RequestDelivers(n.c, t.server, LeaveNow(t, p).req, n.sent, SentTo(t, id));
    TwoSteps(t, StartLeave(p), ServeUpdate(LeaveNow(t, p), id), true);
  }

  // ---- the port of a joined client ----------------------------------------------------------------------

  ghost predicate PortIs(s: ServerState, id: nat, port: int) {
    id < s.nextId && (id in s.clients ==> s.clients[id].port == port)
  }

  ghost predicate PortsOk(s: System) {
    && ServerOk(s.server)
    && (forall j <- s.joinReplies :: j.reply.status == OK ==> PortIs(s.server, j.reply.id, j.reply.updatePort))
    && (forall p <- s.nodes :: s.nodes[p].c.id != SERVER_ID ==> PortIs(s.server, s.nodes[p].c.id, s.nodes[p].c.updatePort))
  }

  /** Clients that stay keep their port, and new ones have new ids. */
  ghost predicate SamePorts(s: ServerState, s': ServerState) {
    && s.nextId <= s'.nextId
    && forall id <- s'.clients :: id < s.nextId ==> id in s.clients && s'.clients[id].port == s.clients[id].port
  }

  lemma UpdatePorts(s: ServerState, at: nat, req: UpdateRequest)
    ensures SamePorts(s, Update(s, at, req).0)
  {
    if at in s.clients && req.id == at {
      Updated(s, at, req);
      StaysOrLeaves(s, at, req);
    } else {
      UpdateRefused(s, at, req);
    }
  }

  lemma SendPorts(s: System, step: Step)
    requires Enabled(s, step) && (step.ServerSend? || step.ServerBroadcast?)
    ensures SamePorts(s.server, Next(s, step).server) && Next(s, step).joinReplies == s.joinReplies
  {
  }

  lemma StepPorts(s: System, step: Step)
    requires Enabled(s, step) && !step.ServeJoin?
    ensures SamePorts(s.server, Next(s, step).server) && Next(s, step).joinReplies == s.joinReplies
  {
    if step.ServeUpdate? {
      UpdatePorts(s.server, step.at, step.request.req);
    } else if step.ServerSend? || step.ServerBroadcast? {
      SendPorts(s, step);
    }
  }

  lemma ReplyKeepsPort(n: Node, reply: ReplyPacket)
    ensures Hear(n, reply).c.id == n.c.id && Hear(n, reply).c.updatePort == n.c.updatePort
  {
  }

  lemma HearPorts(s: System, reply: ReplyPacket)
    requires Enabled(s, HearReply(reply))
    ensures Next(s, HearReply(reply)).nodes == s.nodes[reply.to := Hear(s.nodes[reply.to], reply)]
  {
  }

  /** Nothing else changes a client's id or port. */
  lemma OtherNodePorts(s: System, step: Step, p: nat)
    requires Enabled(s, step) && p in s.nodes && !step.HearJoin? && !step.HearReply?
    ensures var s' := Next(s, step);
      p in s'.nodes && s'.nodes[p].c.id == s.nodes[p].c.id && s'.nodes[p].c.updatePort == s.nodes[p].c.updatePort
  {
  }

  /** Only a join that is heard gives a client an id and a port. */
  lemma StepNodePorts(s: System, step: Step, p: nat)
    requires Enabled(s, step) && p in s.nodes && !step.HearJoin?
    ensures var s' := Next(s, step);
      p in s'.nodes && s'.nodes[p].c.id == s.nodes[p].c.id && s'.nodes[p].c.updatePort == s.nodes[p].c.updatePort
  {
    if step.HearReply? {
      HearPorts(s, step.reply);
      ReplyKeepsPort(s.nodes[step.reply.to], step.reply);
    } else {
      OtherNodePorts(s, step, p);
    }
  }

  lemma JoinPorts(s: System, step: Step)
    requires PortsOk(s) && Enabled(s, step) && step.ServeJoin?
    ensures PortsOk(Next(s, step))
  {
  }

  lemma SameNodes(s: System, step: Step)
    requires Enabled(s, step)
    ensures Next(s, step).nodes.Keys == s.nodes.Keys
  {
  }

  lemma PortsKept(s: System, s': System)
    requires PortsOk(s) && SamePorts(s.server, s'.server) && ServerOk(s'.server) && s'.joinReplies == s.joinReplies
    requires forall p <- s'.nodes :: p in s.nodes && var c, c' := s.nodes[p].c, s'.nodes[p].c;
      || (c'.id == c.id && c'.updatePort == c.updatePort)
      || exists j :: j in s.joinReplies && c' == JoinAnswered(c, j.reply)
    ensures PortsOk(s')
  {
    forall p | p in s'.nodes && s'.nodes[p].c.id != SERVER_ID ensures PortIs(s'.server, s'.nodes[p].c.id, s'.nodes[p].c.updatePort) {
      var c, c' := s.nodes[p].c, s'.nodes[p].c;
      if !(c'.id == c.id && c'.updatePort == c.updatePort) {
        var j :| j in s.joinReplies && c' == JoinAnswered(c, j.reply);
        assert PortIs(s.server, j.reply.id, j.reply.updatePort);
      }
    }
  }

  lemma HearJoinNode(s: System, step: Step)
    requires Enabled(s, step) && step.HearJoin?
    ensures var s' := Next(s, step);
      && step.heard in s.joinReplies && step.heard.to in s.nodes && s'.server == s.server
      && s'.nodes == s.nodes[step.heard.to := s'.nodes[step.heard.to]]
      && s'.nodes[step.heard.to].c == JoinAnswered(s.nodes[step.heard.to].c, step.heard.reply)
  {
  }

  lemma OtherPorts(s: System, step: Step)
    requires PortsOk(s) && Enabled(s, step) && !step.ServeJoin? && ServerOk(Next(s, step).server)
    ensures PortsOk(Next(s, step))
  {
    StepPorts(s, step);
    if step.HearJoin? {
      HearJoinNode(s, step);
    } else {
      SameNodes(s, step);
      forall p | p in s.nodes ensures Next(s, step).nodes[p].c.id == s.nodes[p].c.id
        && Next(s, step).nodes[p].c.updatePort == s.nodes[p].c.updatePort
      {
        StepNodePorts(s, step, p);
      }
    }
    PortsKept(s, Next(s, step));
  }

  lemma {:induction false} RunPorts(s: System, steps: seq<Step>)
    requires MessagesOk(s) && PortsOk(s) && Legal(s, steps, false)
    ensures PortsOk(After(s, steps))
    decreases |steps|
  {
    if steps != [] {
      StepKeeps(s, steps[0]);
      if steps[0].ServeJoin? {
        JoinPorts(s, steps[0]);
      } else {
        OtherPorts(s, steps[0]);
      }
      RunPorts(Next(s, steps[0]), steps[1..]);
    }
  }

  /** In every run, late and repeated replies included, a joined client that is connected sends its updates to the
      very port that the server listens on for it. */
  lemma JoinedPort(s: System, steps: seq<Step>, p: nat)
    requires Initial(s) && Legal(s, steps, false)
    requires var t := After(s, steps); p in t.nodes && t.nodes[p].c.id in t.server.clients
    ensures var t := After(s, steps); t.nodes[p].c.updatePort == t.server.clients[t.nodes[p].c.id].port
  {
    InitiallyOk(s);
    assert PortsOk(s) by {
      forall q | q in s.nodes ensures s.nodes[q].c.id == SERVER_ID {
        assert s.nodes[q].c == NewClient(q, s.nodes[q].c.hello, s.nodes[q].c.peerEndpoint);
      }
    }
    RunPorts(s, steps);
    RunKeeps(s, steps);
  }
}
