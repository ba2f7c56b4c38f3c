/** A whole session: one server, any number of clients, and a network that loses, delays, duplicates and
    reorders. The steps are the critical sections of both halves; packets once sent stay available. */
module Session {
  import opened Options
  import opened Wire
  import opened Protocol
  import opened Server
  import opened Client

  /** The request a client is waiting on; scene counts the submissions up to the one it carries, 0 for none. */
  datatype Flight = Flight(nonce: nat, req: UpdateRequest, scene: nat)

  /** A client process with its history. */
  datatype Node = Node(
    c: ClientState,
    sent: seq<WireMessage>,            // everything ever passed to send()
    taken: seq<ReceivedMessage>,       // messages the application has drained
    news: seq<RosterEvent>,            // roster events the application has drained
    outstanding: Option<Flight>, nextNonce: nat,
    first: seq<RosterEvent>, base: nat, // what the first accepted reply reported, and the version it was for
    versions: seq<nat>,                // published snapshot versions accepted
    submitted: seq<ReceivedState>,     // every scene ever submitted
    confirmed: nat)                    // submissions up to the newest one in a request that was answered

  /** Requests and replies in the network. scene is the Flight's; version is the published snapshot a reply carries,
      if any. */
  datatype RequestPacket = RequestPacket(from: nat, nonce: nat, req: UpdateRequest, scene: nat)
  datatype ReplyPacket = ReplyPacket(to: nat, nonce: nat, id: nat, reply: UpdateReply, version: nat)
  datatype JoinReplyPacket = JoinReplyPacket(to: nat, reply: JoinReply)
  datatype Published = Published(snapshot: Bytes, tick: int)

  /** Client processes are told apart by their join tokens. */
  datatype System = System(
    server: ServerState,
    delivered: seq<ReceivedMessage>,      // messages the server application has drained
    sentTo: map<nat, seq<WireMessage>>,   // everything ever sent to each client id
    tokenOf: map<nat, nat>,               // who each id was ever given to
    published: seq<Published>,
    nodes: map<nat, Node>,
    joins: set<JoinRequest>, joinReplies: set<JoinReplyPacket>,
    requests: set<RequestPacket>, replies: set<ReplyPacket>)

  ghost predicate Initial(s: System) {
    && s.server == NEW_SERVER && s.delivered == [] && s.sentTo == map[] && s.tokenOf == map[] && s.published == []
    && s.joins == {} && s.joinReplies == {} && s.requests == {} && s.replies == {}
    && forall p <- s.nodes :: s.nodes[p] == Node(NewClient(p, s.nodes[p].c.hello, s.nodes[p].c.peerEndpoint), [], [], [], None, 0, [], 0, [], [], 0)
  }

  datatype Step =
    // a client's application
    | AppSend(p: nat, kind: nat, payload: Bytes, tick: int)
    | AppSubmit(p: nat, payload: Bytes, tick: int)
    | AppPoll(p: nat, tick: int)
    | AppDrain(p: nat)
    | AppDrainRoster(p: nat)
    | AppTakeSnapshot(p: nat)
    // the network and the client's update thread
    | AskJoin(p: nat)
    | ServeJoin(join: JoinRequest, port: Option<int>)
    | HearJoin(heard: JoinReplyPacket)
    | StartUpdate(p: nat)
    | StartLeave(p: nat)
    | ServeUpdate(request: RequestPacket, at: nat)  // at: the client whose socket it reached
    | HearReply(reply: ReplyPacket)
    | GiveUp(p: nat)
    // the server
    | TimeOut(id: nat)
    | ServerSend(to: nat, kind: nat, payload: Bytes, tick: int)
    | ServerBroadcast(kind: nat, payload: Bytes, tick: int)
    | ServerPublish(payload: Bytes, tick: int)
    | ServerDrain
    | ServerDrainRoster
    | ServerDrainStates
    | ServerSwapDeparted

  /** No replies but these are heard from packets that were sent; one exchange at a time per client. */
  ghost predicate Enabled(s: System, step: Step) {
    match step
    case AppSubmit(p, _, _) => p in s.nodes && s.nodes[p].c.id != SERVER_ID
    case ServeJoin(join, _) => join in s.joins
    case HearJoin(heard) => heard in s.joinReplies && heard.to in s.nodes
    case StartUpdate(p) => p in s.nodes && s.nodes[p].c.id != SERVER_ID && s.nodes[p].outstanding.None?
    case StartLeave(p) => p in s.nodes && s.nodes[p].c.id != SERVER_ID && s.nodes[p].outstanding.None?
    case ServeUpdate(request, _) => request in s.requests
    case HearReply(reply) => reply in s.replies && reply.to in s.nodes
    case GiveUp(p) => p in s.nodes && s.nodes[p].outstanding.Some?
    case AppSend(p, _, _, _) => p in s.nodes
    case AppPoll(p, _) => p in s.nodes
    case AppDrain(p) => p in s.nodes
    case AppDrainRoster(p) => p in s.nodes
    case AppTakeSnapshot(p) => p in s.nodes
    case AskJoin(p) => p in s.nodes
    case _ => true
  }

  /** A reply is taken only by the request it answers. The request socket guarantees this; the message
      properties do not need it. */
  ghost predicate Paired(s: System, step: Step) {
    step.HearReply? && step.reply.to in s.nodes ==>
      var o := s.nodes[step.reply.to].outstanding; o.Some? && o.value.nonce == step.reply.nonce
  }

  function SentTo(s: System, id: nat): seq<WireMessage> {
    if id in s.sentTo then s.sentTo[id] else []
  }

  function SceneNumber(n: Node, req: UpdateRequest): nat { if req.hasState then |n.submitted| else 0 }

  function Launch(n: Node, c: ClientState, req: UpdateRequest): Node {
    n.(c := c, outstanding := Some(Flight(n.nextNonce, req, SceneNumber(n, req))),
       nextNonce := n.nextNonce + 1)
  }

  function PacketOf(p: nat, f: Flight): RequestPacket { RequestPacket(p, f.nonce, f.req, f.scene) }

  /** What hearing a reply does to a client. A stray reply leaves the outstanding request alone. */
  function Hear(n: Node, reply: ReplyPacket): Node {
    var (c, result) := ProcessReply(n.c, reply.reply);
    var heard := if result != Done then n.(c := c) else n.(
      c := c,
      first := if n.c.rosterVersion == 0 then reply.reply.rosterEvents else n.first,
      base := if n.c.rosterVersion == 0 then reply.reply.rosterVersion else n.base,
      versions := if reply.reply.hasSnapshot then n.versions + [reply.version] else n.versions);
    if n.outstanding.None? || n.outstanding.value.nonce != reply.nonce then heard
    else if result == Failed then heard.(outstanding := None, c := KeepForRetry(c, n.outstanding.value.req))
    else
      var scene := n.outstanding.value.scene;
      heard.(outstanding := None, confirmed := if n.confirmed < scene then scene else n.confirmed)
  }

  function JoinServed(s: System, join: JoinRequest, port: Option<int>): System {
    var (server, reply) := Join(s.server, join, port);
    s.(server := server,
       tokenOf := if server.nextId == s.server.nextId then s.tokenOf else s.tokenOf[s.server.nextId := join.token],
       joinReplies := s.joinReplies + {JoinReplyPacket(join.token, reply)})
  }

  function UpdateServed(s: System, request: RequestPacket, at: nat): System {
    var (server, reply) := Update(s.server, at, request.req);
    s.(server := server,
       replies := s.replies + {ReplyPacket(request.from, request.nonce, request.req.id, reply, s.server.snapshotVersion)})
  }

  function Next(s: System, step: Step): System
    requires Enabled(s, step)
  {
    match step
    case AppSend(p, kind, payload, tick) =>
      var n := s.nodes[p];
      s.(nodes := s.nodes[p := n.(c := SendMessage(n.c, kind, payload, tick),
                                  sent := n.sent + [WireMessage(n.c.nextSendSeq, kind, tick, payload)])])
    case AppSubmit(p, payload, tick) =>
      var n := s.nodes[p];
      s.(nodes := s.nodes[p := n.(c := Submit(n.c, payload, tick), submitted := n.submitted + [ReceivedState(n.c.id, tick, payload)])])
    case AppPoll(p, tick) =>
      s.(nodes := s.nodes[p := s.nodes[p].(c := Poll(s.nodes[p].c, tick))])
    case AppDrain(p) =>
      var n := s.nodes[p];
      s.(nodes := s.nodes[p := n.(c := n.c.(inbox := []), taken := n.taken + n.c.inbox)])
    case AppDrainRoster(p) =>
      var n := s.nodes[p];
      s.(nodes := s.nodes[p := n.(c := n.c.(rosterEvents := []), news := n.news + n.c.rosterEvents)])
    case AppTakeSnapshot(p) =>
      s.(nodes := s.nodes[p := s.nodes[p].(c := s.nodes[p].c.(latestSnapshot := None))])
    case AskJoin(p) =>
      s.(joins := s.joins + {JoinRequestOf(s.nodes[p].c)})
    case ServeJoin(join, port) =>
      JoinServed(s, join, port)
    case HearJoin(heard) =>
      var n := s.nodes[heard.to];
      s.(nodes := s.nodes[heard.to := n.(c := JoinAnswered(n.c, heard.reply))])
    case StartUpdate(p) =>
      var n := s.nodes[p];
      var (c, req) := TakeRequest(n.c);
      s.(nodes := s.nodes[p := Launch(n, c, req)], requests := s.requests + {PacketOf(p, Launch(n, c, req).outstanding.value)})
    case StartLeave(p) =>
      var n := s.nodes[p];
      var req := BuildRequest(n.c, LEAVE);
      s.(nodes := s.nodes[p := Launch(n, n.c, req)], requests := s.requests + {PacketOf(p, Launch(n, n.c, req).outstanding.value)})
    case ServeUpdate(request, at) =>
      UpdateServed(s, request, at)
    case HearReply(reply) =>
      s.(nodes := s.nodes[reply.to := Hear(s.nodes[reply.to], reply)])
    case GiveUp(p) =>
      var n := s.nodes[p];
      s.(nodes := s.nodes[p := n.(outstanding := None, c := KeepForRetry(n.c, n.outstanding.value.req))])
    case TimeOut(id) =>
      s.(server := Retire(s.server, id))
    case ServerSend(to, kind, payload, tick) =>
      if to !in s.server.clients then s else
      s.(server := Send(s.server, to, kind, payload, tick),
         sentTo := s.sentTo[to := SentTo(s, to) + [WireMessage(s.server.clients[to].nextSendSeq, kind, tick, payload)]])
    case ServerBroadcast(kind, payload, tick) =>
      s.(server := Broadcast(s.server, kind, payload, tick),
         sentTo := map id | id in s.sentTo.Keys + s.server.clients.Keys ::
           SentTo(s, id) + if id in s.server.clients then [WireMessage(s.server.clients[id].nextSendSeq, kind, tick, payload)] else [])
    case ServerPublish(payload, tick) =>
      s.(server := Publish(s.server, payload, tick), published := s.published + [Published(payload, tick)])
    case ServerDrain =>
      s.(server := s.server.(inbox := []), delivered := s.delivered + s.server.inbox)
    case ServerDrainRoster =>
      s.(server := s.server.(rosterEvents := []))
    case ServerDrainStates =>
      s.(server := s.server.(states := map[]))
    case ServerSwapDeparted =>
      s.(server := s.server.(departed := []))
  }

  /** A run takes enabled steps; a paired one also matches replies with requests. */
  ghost predicate Legal(s: System, steps: seq<Step>, paired: bool)
    decreases |steps|
  {
    steps != [] ==>
      && Enabled(s, steps[0]) && (paired ==> Paired(s, steps[0]))
      && Legal(Next(s, steps[0]), steps[1..], paired)
  }

  ghost function After(s: System, steps: seq<Step>): System
    decreases |steps|
  {
    if steps == [] || !Enabled(s, steps[0]) then s else After(Next(s, steps[0]), steps[1..])
  }
}
