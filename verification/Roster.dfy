/** Roster replication over paired runs: a client hears a reply only for the request it is waiting on, while
    requests and replies may still be lost, delayed, duplicated, reordered and handled late. */
module Roster {
  import opened Options
  import opened Protocol
  import opened Server
  import opened Client
  import opened Session

  // ---- what roster events mean ----------------------------------------------------------------------

  function Follow(m: map<nat, ClientInfo>, e: RosterEvent): map<nat, ClientInfo> {
    if e.change == JOINED then m[e.client.id := e.client] else m - {e.client.id}
  }

  function FoldOn(m: map<nat, ClientInfo>, events: seq<RosterEvent>): map<nat, ClientInfo> {
    if events == [] then m else Follow(FoldOn(m, events[..|events| - 1]), events[|events| - 1])
  }

  /** Who is connected after these events. */
  function Fold(events: seq<RosterEvent>): map<nat, ClientInfo> { FoldOn(map[], events) }

  lemma {:induction false} FoldConcat(m: map<nat, ClientInfo>, a: seq<RosterEvent>, b: seq<RosterEvent>)
    ensures FoldOn(m, a + b) == FoldOn(FoldOn(m, a), b)
    decreases |b|
  {
    if b == [] {
      assert a + b == a;
    } else {
      var k := |b| - 1;
      assert (a + b)[..|a + b| - 1] == a + b[..k];
      FoldConcat(m, a, b[..k]);
    }
  }

  lemma FoldOne(a: seq<RosterEvent>, e: RosterEvent)
    ensures Fold(a + [e]) == Follow(Fold(a), e)
  {
    FoldConcat(map[], a, [e]);
    assert FoldOn(Fold(a), []) == Fold(a);
  }

  ghost predicate JoinedOnce(events: seq<RosterEvent>) {
    forall i, j :: 0 <= i < j < |events| && events[i].change == JOINED && events[j].change == JOINED ==>
      events[i].client.id != events[j].client.id
  }

  /** Whoever is connected once joined. */
  lemma {:induction false} FoldFrom(events: seq<RosterEvent>, id: nat)
    requires id in Fold(events)
    ensures exists k :: 0 <= k < |events| && events[k].change == JOINED && events[k].client.id == id
    decreases |events|
  {
    var k := |events| - 1;
    if events[k].change != JOINED || events[k].client.id != id {
      FoldFrom(events[..k], id);
      var i :| 0 <= i < k && events[..k][i].change == JOINED && events[..k][i].client.id == id;
      assert events[i] == events[..k][i];
    }
  }

  /** first tells of exactly who is connected after log, one Joined each. */
  ghost predicate Covers(first: seq<RosterEvent>, log: seq<RosterEvent>) {
    Fold(first) == Fold(log) && JoinedOnce(first) && forall e <- first :: e.change == JOINED
  }

  /** Who is in the covering start has joined in the log it covers, so cannot join again later in it. */
  lemma NotAgain(first: seq<RosterEvent>, log: seq<RosterEvent>, base: nat, i: nat, j: nat)
    requires base <= j < |log| && i < |first| && Covers(first, log[..base]) && JoinedOnce(log) && log[j].change == JOINED
    ensures first[i].client.id != log[j].client.id
  {
    JoinedKeeps(first, i);
    FoldFrom(log[..base], first[i].client.id);
    var k :| 0 <= k < base && log[..base][k].change == JOINED && log[..base][k].client.id == first[i].client.id;
    assert log[k] == log[..base][k];
  }

  /** Catching up: a covering start, then the rest of the log. */
  lemma CatchUp(first: seq<RosterEvent>, log: seq<RosterEvent>, base: nat, v: nat)
    requires base <= v <= |log| && Covers(first, log[..base]) && JoinedOnce(log)
    ensures Fold(first + log[base..v]) == Fold(log[..v])
    ensures JoinedOnce(first + log[base..v])
  {
    FoldConcat(map[], first, log[base..v]);
    FoldConcat(map[], log[..base], log[base..v]);
    assert log[..base] + log[base..v] == log[..v];
    CaughtUpOnce(first, log, base, v);
  }

  lemma CaughtUpOnce(first: seq<RosterEvent>, log: seq<RosterEvent>, base: nat, v: nat)
    requires base <= v <= |log| && Covers(first, log[..base]) && JoinedOnce(log)
    ensures JoinedOnce(first + log[base..v])
  {
    var all := first + log[base..v];
    forall i, j | 0 <= i < j < |all| && all[i].change == JOINED && all[j].change == JOINED
      ensures all[i].client.id != all[j].client.id
    {
      if i < |first| <= j {
        NotAgain(first, log, base, i, base + (j - |first|));
      }
    }
  }

  lemma {:induction false} JoinedKeeps(first: seq<RosterEvent>, i: nat)
    requires i < |first| && forall e <- first :: e.change == JOINED
    ensures first[i].client.id in Fold(first)
    decreases |first|
  {
    var k := |first| - 1;
    assert first[k] in first;
    if i < k {
      assert forall e <- first[..k] :: e in first;
      JoinedKeeps(first[..k], i);
    }
  }

  // ---- the server's log -----------------------------------------------------------------------------

  function Infos(clients: map<nat, Slot>): map<nat, ClientInfo> {
    map id | id in clients :: clients[id].info
  }

  /** Replaying the log gives the live clients; ids in it were handed out, and joined once. */
  ghost predicate LogOk(s: ServerState) {
    && ServerOk(s) && Fold(s.rosterLog) == Infos(s.clients) && JoinedOnce(s.rosterLog)
    && forall e <- s.rosterLog :: 1 <= e.client.id < s.nextId
  }

  lemma LogAppend(log: seq<RosterEvent>, e: RosterEvent)
    requires JoinedOnce(log) && (e.change == JOINED ==> forall k <- log :: k.client.id != e.client.id)
    ensures JoinedOnce(log + [e]) && Fold(log + [e]) == Follow(Fold(log), e)
  {
    FoldOne(log, e);
    var all := log + [e];
    forall i, j | 0 <= i < j < |all| && all[i].change == JOINED && all[j].change == JOINED
      ensures all[i].client.id != all[j].client.id
    {
      assert all[i] == log[i] && all[i] in log;
    }
  }

  lemma JoinLogged(s: ServerState, req: JoinRequest, port: Option<int>)
    requires LogOk(s)
    ensures var s' := Join(s, req, port).0; LogOk(s') && s.rosterLog <= s'.rosterLog
  {
    var s' := Join(s, req, port).0;
    if s'.nextId != s.nextId {
      LogAppend(s.rosterLog, s'.rosterLog[|s.rosterLog|]);
      assert Infos(s'.clients) == Infos(s.clients)[s.nextId := s'.clients[s.nextId].info];
    }
  }

  lemma RetireLogged(s: ServerState, id: nat)
    requires LogOk(s)
    ensures LogOk(Retire(s, id)) && s.rosterLog <= Retire(s, id).rosterLog
  {
    if id in s.clients {
      LogAppend(s.rosterLog, RosterEvent(LEFT, s.clients[id].info));
      assert Infos(s.clients - {id}) == Infos(s.clients) - {id};
    }
  }

  /** The log, the counter and every client's description are as before. */
  ghost predicate SameRoster(s: ServerState, s': ServerState) {
    && s'.rosterLog == s.rosterLog && s'.nextId == s.nextId && s'.clients.Keys == s.clients.Keys
    && forall id <- s.clients :: s'.clients[id].info == s.clients[id].info
  }

  lemma SameLogged(s: ServerState, s': ServerState)
    requires LogOk(s) && SameRoster(s, s')
    ensures LogOk(s')
  {
    assert Infos(s'.clients) == Infos(s.clients);
  }

  lemma UpdateLogged(s: ServerState, id: nat, req: UpdateRequest)
    requires LogOk(s)
    ensures var s' := Update(s, id, req).0; LogOk(s') && s.rosterLog <= s'.rosterLog
  {
    if req.id == id && id in s.clients {
      var s1 := Absorb(s, id, req);
      SameLogged(s, s1);
      if req.kind == LEAVE {
        RetireLogged(s1, id);
      } else {
        SameLogged(s1, Update(s, id, req).0);
      }
    }
  }

  /** The full roster tells of exactly the live clients, each once. */
  lemma {:induction false} FullRosterCovers(clients: map<nat, Slot>, bound: nat)
    requires forall id <- clients :: clients[id].info.id == id
    ensures var r := FullRoster(clients, bound);
      && Fold(r) == (map id | id in clients && id < bound :: clients[id].info)
      && JoinedOnce(r) && forall e <- r :: e.change == JOINED && e.client.id < bound
  {
    if bound > 0 {
      FullRosterCovers(clients, bound - 1);
      var before := FullRoster(clients, bound - 1);
      if bound - 1 in clients {
        var e := RosterEvent(JOINED, clients[bound - 1].info);
        LogAppend(before, e);
      } else {
        assert FullRoster(clients, bound) == before;
      }
    }
  }

  /** In the order of their ids. */
  lemma {:induction false} FullRosterInOrder(clients: map<nat, Slot>, bound: nat)
    requires forall id <- clients :: clients[id].info.id == id
    ensures forall i :: 0 <= i < |FullRoster(clients, bound)| ==> FullRoster(clients, bound)[i].client.id < bound
    ensures forall i, j :: 0 <= i < j < |FullRoster(clients, bound)| ==>
      FullRoster(clients, bound)[i].client.id < FullRoster(clients, bound)[j].client.id
  {
    if bound > 0 {
      FullRosterInOrder(clients, bound - 1);
      var before, r := FullRoster(clients, bound - 1), FullRoster(clients, bound);
      if bound - 1 in clients {
        assert r == before + [RosterEvent(JOINED, clients[bound - 1].info)];
        assert forall i :: 0 <= i < |before| ==> r[i].client.id < bound - 1;
        assert r[|before|].client.id == bound - 1;
      } else {
        assert r == before;
      }
    }
  }

  // ---- replies and what a client makes of them ------------------------------------------------------

  /** An Ok reply to a request at version v brings its reader to a later version of the log. */
  ghost predicate Answers(v: nat, log: seq<RosterEvent>, reply: UpdateReply) {
    var w := reply.rosterVersion;
    0 < w <= |log| && v <= w && if v == 0 then Covers(reply.rosterEvents, log[..w]) else reply.rosterEvents == log[v..w]
  }

  lemma AnswerGood(s: ServerState, id: nat, req: UpdateRequest)
    requires LogOk(s) && req.id == id && id in s.clients && req.rosterVersion <= |s.rosterLog|
    ensures var (s', reply) := Update(s, id, req); Answers(req.rosterVersion, s.rosterLog, reply)
  {
    var s1 := Absorb(s, id, req);
    SameLogged(s, s1);
    assert id in Infos(s.clients);
    FullRosterCovers(s1.clients, s1.nextId);
    assert Infos(s1.clients) == (map k | k in s1.clients && k < s1.nextId :: s1.clients[k].info);
    var log := s.rosterLog;
    assert log[..|log|] == log;
  }

  /** Everything the client's application has been told about the roster, drained or not. */
  ghost function Told(n: Node): seq<RosterEvent> { n.news + n.c.rosterEvents }

  ghost predicate NewsOk(n: Node, log: seq<RosterEvent>) {
    var v := n.c.rosterVersion;
    && v <= |log|
    && if v == 0 then Told(n) == []
       else 0 < n.base <= v && Covers(n.first, log[..n.base]) && Told(n) == n.first + log[n.base..v]
  }

  lemma LogGrows(n: Node, v: nat, reply: UpdateReply, log: seq<RosterEvent>, log': seq<RosterEvent>)
    requires log <= log'
    ensures NewsOk(n, log) ==> NewsOk(n, log')
    ensures Answers(v, log, reply) ==> Answers(v, log', reply)
  {
    var w := reply.rosterVersion;
    if Answers(v, log, reply) {
      assert log[..w] == log'[..w] && log[v..w] == log'[v..w];
    }
    if NewsOk(n, log) && n.c.rosterVersion > 0 {
      assert log[..n.base] == log'[..n.base] && log[n.base..n.c.rosterVersion] == log'[n.base..n.c.rosterVersion];
    }
  }

  lemma HearTold(n: Node, packet: ReplyPacket)
    requires packet.reply.status == OK
    ensures var n' := Hear(n, packet);
      && n'.c.rosterVersion == packet.reply.rosterVersion && Told(n') == Told(n) + packet.reply.rosterEvents
      && n'.first == (if n.c.rosterVersion == 0 then packet.reply.rosterEvents else n.first)
      && n'.base == (if n.c.rosterVersion == 0 then packet.reply.rosterVersion else n.base)
  {
    assert Told(Hear(n, packet)) == n.news + (n.c.rosterEvents + packet.reply.rosterEvents);
  }

  lemma HearNews(n: Node, packet: ReplyPacket, log: seq<RosterEvent>)
    requires NewsOk(n, log) && packet.reply.status == OK && Answers(n.c.rosterVersion, log, packet.reply)
    ensures NewsOk(Hear(n, packet), log)
  {
    HearTold(n, packet);
    var v, w := n.c.rosterVersion, packet.reply.rosterVersion;
    if v == 0 {
      assert Told(n) + packet.reply.rosterEvents == packet.reply.rosterEvents + log[w..w];
    } else {
      assert n.first + log[n.base..v] + log[v..w] == n.first + log[n.base..w];
    }
  }

  // ---- pairing --------------------------------------------------------------------------------------

  ghost predicate Awaits(n: Node, nonce: nat) { n.outstanding.Some? && n.outstanding.value.nonce == nonce }

  ghost predicate AskedOk(n: Node) {
    n.outstanding.Some? ==>
      var f := n.outstanding.value;
      f.nonce < n.nextNonce && f.req.id == n.c.id != SERVER_ID && f.req.rosterVersion == n.c.rosterVersion
  }

  ghost predicate RequestPaired(nodes: map<nat, Node>, r: RequestPacket) {
    && r.from in nodes && r.nonce < nodes[r.from].nextNonce
    && (Awaits(nodes[r.from], r.nonce) ==> r.req == nodes[r.from].outstanding.value.req)
  }

  ghost predicate ReplyPaired(nodes: map<nat, Node>, log: seq<RosterEvent>, r: ReplyPacket) {
    && r.to in nodes && r.nonce < nodes[r.to].nextNonce
    && (Awaits(nodes[r.to], r.nonce) && r.reply.status == OK ==>
          r.id == nodes[r.to].c.id && Answers(nodes[r.to].c.rosterVersion, log, r.reply))
  }

  ghost predicate RosterOk(s: System) {
    && LogOk(s.server)
    && (forall p <- s.nodes :: NewsOk(s.nodes[p], s.server.rosterLog) && AskedOk(s.nodes[p]))
    && (forall r <- s.requests :: RequestPaired(s.nodes, r))
    && (forall r <- s.replies :: ReplyPaired(s.nodes, s.server.rosterLog, r))
  }

  /** A client may stop waiting, go on waiting for the same answer, or start to wait for a fresh one. */
  ghost predicate Moves(n: Node, n': Node) {
    && n'.nextNonce >= n.nextNonce
    && (n'.outstanding.None?
        || (n'.outstanding == n.outstanding && n'.c.id == n.c.id && n'.c.rosterVersion == n.c.rosterVersion)
        || n'.outstanding.value.nonce >= n.nextNonce)
  }

  lemma OldRequestPaired(nodes: map<nat, Node>, nodes': map<nat, Node>, r: RequestPacket)
    requires RequestPaired(nodes, r) && r.from in nodes' && Moves(nodes[r.from], nodes'[r.from])
    ensures RequestPaired(nodes', r)
  {
  }

  lemma OldReplyPaired(nodes: map<nat, Node>, nodes': map<nat, Node>, log: seq<RosterEvent>, log': seq<RosterEvent>, r: ReplyPacket)
    requires ReplyPaired(nodes, log, r) && r.to in nodes' && Moves(nodes[r.to], nodes'[r.to]) && log <= log'
    ensures ReplyPaired(nodes', log', r)
  {
    LogGrows(nodes[r.to], nodes[r.to].c.rosterVersion, r.reply, log, log');
  }

  /** A step keeps the invariant if the log only grew, every client moved and is good again, and what is new
      in the network is good. */
  lemma RosterKept(s: System, s': System)
    requires RosterOk(s) && LogOk(s'.server) && s.server.rosterLog <= s'.server.rosterLog
    requires s'.nodes.Keys == s.nodes.Keys
    requires forall p <- s.nodes :: Moves(s.nodes[p], s'.nodes[p]) && NewsOk(s'.nodes[p], s'.server.rosterLog) && AskedOk(s'.nodes[p])
    requires forall r <- s'.requests :: r in s.requests || RequestPaired(s'.nodes, r)
    requires forall r <- s'.replies :: r in s.replies || ReplyPaired(s'.nodes, s'.server.rosterLog, r)
    ensures RosterOk(s')
  {
    forall r | r in s'.requests ensures RequestPaired(s'.nodes, r) {
      if r in s.requests {
        OldRequestPaired(s.nodes, s'.nodes, r);
      }
    }
    forall r | r in s'.replies ensures ReplyPaired(s'.nodes, s'.server.rosterLog, r) {
      if r in s.replies {
        OldReplyPaired(s.nodes, s'.nodes, s.server.rosterLog, s'.server.rosterLog, r);
      }
    }
  }

  // ---- the steps ------------------------------------------------------------------------------------

  lemma NodeStep(s: System, s': System, p: nat)
    requires RosterOk(s) && p in s.nodes && p in s'.nodes && s'.server == s.server && s'.replies == s.replies
    requires s'.nodes == s.nodes[p := s'.nodes[p]] && Moves(s.nodes[p], s'.nodes[p])
    requires NewsOk(s'.nodes[p], s.server.rosterLog) && AskedOk(s'.nodes[p])
    requires forall r <- s'.requests :: r in s.requests || RequestPaired(s'.nodes, r)
    ensures RosterOk(s')
  {
    RosterKept(s, s');
  }

  lemma ServerStep(s: System, s': System)
    requires RosterOk(s) && LogOk(s'.server) && s.server.rosterLog <= s'.server.rosterLog
    requires s'.nodes == s.nodes && s'.requests == s.requests
    requires forall r <- s'.replies :: r in s.replies || ReplyPaired(s.nodes, s'.server.rosterLog, r)
    ensures RosterOk(s')
  {
    forall p | p in s.nodes ensures NewsOk(s.nodes[p], s'.server.rosterLog) {
      LogGrows(s.nodes[p], 0, Bare(OK), s.server.rosterLog, s'.server.rosterLog);
    }
    RosterKept(s, s');
  }

  lemma ServeUpdateRoster(s: System, request: RequestPacket, at: nat)
    requires RosterOk(s) && request in s.requests
    ensures RosterOk(UpdateServed(s, request, at))
  {
    var s' := UpdateServed(s, request, at);
    UpdateLogged(s.server, at, request.req);
    var reply := Update(s.server, at, request.req).1;
    var packet := ReplyPacket(request.from, request.nonce, request.req.id, reply, s.server.snapshotVersion);
    var n := s.nodes[request.from];
    if Awaits(n, request.nonce) && reply.status == OK {
      AnswerGood(s.server, at, request.req);
      LogGrows(n, n.c.rosterVersion, reply, s.server.rosterLog, s'.server.rosterLog);
    }
    assert ReplyPaired(s.nodes, s'.server.rosterLog, packet);
    ServerStep(s, s');
  }

  lemma HearReplyRoster(s: System, packet: ReplyPacket)
    requires RosterOk(s) && packet in s.replies && packet.to in s.nodes && Awaits(s.nodes[packet.to], packet.nonce)
    ensures RosterOk(s.(nodes := s.nodes[packet.to := Hear(s.nodes[packet.to], packet)]))
  {
    var p, n := packet.to, s.nodes[packet.to];
    var n' := Hear(n, packet);
    if packet.reply.status == OK {
      HearNews(n, packet, s.server.rosterLog);
    } else {
      assert Told(n') == Told(n);
    }
    NodeStep(s, s.(nodes := s.nodes[p := n']), p);
  }

  /** A client does something that tells its application nothing new about the roster. */
  ghost predicate SameNews(n: Node, n': Node) {
    Told(n') == Told(n) && n'.c.rosterVersion == n.c.rosterVersion && n'.first == n.first && n'.base == n.base
  }

  ghost predicate ByClient(step: Step) {
    step.AppSend? || step.AppSubmit? || step.AppPoll? || step.AppDrain? || step.AppDrainRoster? || step.AppTakeSnapshot? || step.GiveUp?
  }

  lemma ClientStep(s: System, step: Step)
    requires Enabled(s, step) && ByClient(step) && AskedOk(s.nodes[step.p])
    ensures var s' := Next(s, step);
      && step.p in s.nodes && step.p in s'.nodes && s'.nodes == s.nodes[step.p := s'.nodes[step.p]]
      && s'.server == s.server && s'.replies == s.replies && s'.requests == s.requests
      && SameNews(s.nodes[step.p], s'.nodes[step.p]) && Moves(s.nodes[step.p], s'.nodes[step.p]) && AskedOk(s'.nodes[step.p])
  {
  }

  lemma HearJoinRoster(s: System, heard: JoinReplyPacket)
    requires RosterOk(s) && Enabled(s, HearJoin(heard))
    ensures RosterOk(Next(s, HearJoin(heard)))
  {
    var s' := Next(s, HearJoin(heard));
    assert SameNews(s.nodes[heard.to], s'.nodes[heard.to]);
    NodeStep(s, s', heard.to);
  }

  ghost predicate Starts(n: Node, n': Node) {
    && SameNews(n, n') && AskedOk(n') && n'.nextNonce == n.nextNonce + 1
    && n'.outstanding.Some? && n'.outstanding.value.nonce == n.nextNonce
  }

  lemma StartStep(s: System, step: Step)
    requires Enabled(s, step) && (step.StartUpdate? || step.StartLeave?)
    ensures var s' := Next(s, step);
      && step.p in s.nodes && step.p in s'.nodes && s'.nodes == s.nodes[step.p := s'.nodes[step.p]]
      && s'.server == s.server && s'.replies == s.replies && Starts(s.nodes[step.p], s'.nodes[step.p])
      && s'.requests == s.requests + {PacketOf(step.p, s'.nodes[step.p].outstanding.value)}
  {
  }

  lemma StartRoster(s: System, step: Step)
    requires RosterOk(s) && Enabled(s, step) && (step.StartUpdate? || step.StartLeave?)
    ensures RosterOk(Next(s, step))
  {
    StartStep(s, step);
    NodeStep(s, Next(s, step), step.p);
  }

  /** Steps that touch no roster: the server's own thread, and a join that has only been asked for. */
  ghost predicate OffRoster(step: Step) {
    || step.ServerSend? || step.ServerBroadcast? || step.ServerPublish? || step.ServerDrain?
    || step.ServerDrainRoster? || step.ServerDrainStates? || step.ServerSwapDeparted? || step.AskJoin?
  }

  lemma OffRosterStep(s: System, step: Step)
    requires Enabled(s, step) && OffRoster(step)
    ensures var s' := Next(s, step);
      && s'.nodes == s.nodes && s'.requests == s.requests && s'.replies == s.replies && SameRoster(s.server, s'.server)
  {
  }

  lemma ServeJoinRoster(s: System, join: JoinRequest, port: Option<int>)
    requires RosterOk(s)
    ensures RosterOk(JoinServed(s, join, port))
  {
    JoinLogged(s.server, join, port);
    ServerStep(s, JoinServed(s, join, port));
  }

  lemma TimeOutRoster(s: System, id: nat)
    requires RosterOk(s)
    ensures RosterOk(s.(server := Retire(s.server, id)))
  {
    RetireLogged(s.server, id);
    ServerStep(s, s.(server := Retire(s.server, id)));
  }

  lemma QuietServerRoster(s: System, s': System)
    requires RosterOk(s) && SameRoster(s.server, s'.server)
    requires s'.nodes == s.nodes && s'.requests == s.requests && s'.replies == s.replies
    ensures RosterOk(s')
  {
    SameLogged(s.server, s'.server);
    ServerStep(s, s');
  }

  lemma ClientRoster(s: System, step: Step)
    requires RosterOk(s) && Enabled(s, step) && ByClient(step)
    ensures RosterOk(Next(s, step))
  {
    ClientStep(s, step);
    NodeStep(s, Next(s, step), step.p);
  }

  lemma OffRosterKeeps(s: System, step: Step)
    requires RosterOk(s) && Enabled(s, step) && OffRoster(step)
    ensures RosterOk(Next(s, step))
  {
    OffRosterStep(s, step);
    QuietServerRoster(s, Next(s, step));
  }

  lemma NetworkRoster(s: System, step: Step)
    requires RosterOk(s) && Enabled(s, step) && Paired(s, step)
    requires step.ServeJoin? || step.ServeUpdate? || step.HearReply? || step.TimeOut?
    ensures RosterOk(Next(s, step))
  {
    match step
    case ServeJoin(join, port) => ServeJoinRoster(s, join, port);
    case ServeUpdate(request, at) => ServeUpdateRoster(s, request, at);
    case HearReply(packet) => HearReplyRoster(s, packet);
    case TimeOut(id) => TimeOutRoster(s, id);
  }

  lemma StepRoster(s: System, step: Step)
    requires RosterOk(s) && Enabled(s, step) && Paired(s, step)
    ensures RosterOk(Next(s, step))
  {
    if step.HearJoin? {
      HearJoinRoster(s, step.heard);
    } else if step.StartUpdate? || step.StartLeave? {
      StartRoster(s, step);
    } else if ByClient(step) {
      ClientRoster(s, step);
    } else if OffRoster(step) {
      OffRosterKeeps(s, step);
    } else {
      NetworkRoster(s, step);
    }
  }

  lemma {:induction false} RunRoster(s: System, steps: seq<Step>)
    requires RosterOk(s) && Legal(s, steps, true)
    ensures RosterOk(After(s, steps))
    decreases |steps|
  {
    if steps != [] {
      StepRoster(s, steps[0]);
      RunRoster(Next(s, steps[0]), steps[1..]);
    }
  }

  lemma InitiallyRosterOk(s: System)
    requires Initial(s)
    ensures RosterOk(s)
  {
    assert Infos(s.server.clients) == map[];
    forall p | p in s.nodes ensures NewsOk(s.nodes[p], s.server.rosterLog) && AskedOk(s.nodes[p]) {
      assert s.nodes[p].c == NewClient(p, s.nodes[p].c.hello, s.nodes[p].c.peerEndpoint);
    }
  }

  /** Replaying the whole log gives the live clients, and folding everything a client's application has been
      told gives the roster at the client's version; nobody is reported Joined twice. */
  lemma RosterReplicates(s: System, steps: seq<Step>, p: nat)
    requires Initial(s) && Legal(s, steps, true) && p in After(s, steps).nodes
    ensures var t := After(s, steps);
      var n, log := t.nodes[p], t.server.rosterLog;
      && Fold(log) == Infos(t.server.clients) && JoinedOnce(log)
      && n.c.rosterVersion <= |log| && Fold(Told(n)) == Fold(log[..n.c.rosterVersion])
      && (n.c.rosterVersion == |log| ==> Fold(Told(n)) == Infos(t.server.clients))
      && JoinedOnce(Told(n)) && (forall e <- Told(n) :: e.client.id != SERVER_ID)
  {
    InitiallyRosterOk(s);
    RunRoster(s, steps);
    var n, log := After(s, steps).nodes[p], After(s, steps).server.rosterLog;
    if n.c.rosterVersion > 0 {
      CatchUp(n.first, log, n.base, n.c.rosterVersion);
      ToldOfClients(n.first, log, n.base, n.c.rosterVersion);
    }
    assert log[..|log|] == log;
  }

  lemma ToldOfClients(first: seq<RosterEvent>, log: seq<RosterEvent>, base: nat, v: nat)
    requires base <= v <= |log| && Covers(first, log[..base]) && forall e <- log :: 1 <= e.client.id
    ensures forall e <- first + log[base..v] :: e.client.id != SERVER_ID
  {
    forall e | e in first ensures e.client.id != SERVER_ID {
      var i :| 0 <= i < |first| && first[i] == e;
      JoinedKeeps(first, i);
      FoldFrom(log[..base], e.client.id);
      var k :| 0 <= k < base && log[..base][k].change == JOINED && log[..base][k].client.id == e.client.id;
      assert log[k] in log;
    }
  }
}
