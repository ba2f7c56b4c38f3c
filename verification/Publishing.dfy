/** Latest-wins snapshots over paired runs: whatever is lost or late, a client only ever moves forward
    through the published versions. */
module Publishing {
  import opened Options
  import opened Wire
  import opened Protocol
  import opened Server
  import opened Client
  import opened Session
  import opened Roster

  ghost predicate Increasing(vs: seq<nat>) { forall i, j :: 0 <= i < j < |vs| ==> vs[i] < vs[j] }

  ghost function Last(vs: seq<nat>): nat { if vs == [] then 0 else vs[|vs| - 1] }

  lemma Advance(vs: seq<nat>, v: nat)
    requires Increasing(vs) && Last(vs) < v
    ensures Increasing(vs + [v]) && Last(vs + [v]) == v
  {
  }

  ghost predicate IsPublished(published: seq<Published>, v: nat, snapshot: Bytes, tick: int) {
    1 <= v <= |published| && published[v - 1] == Published(snapshot, tick)
  }

  /** The server offers the newest published scene, and has sent no client anything newer. */
  ghost predicate OffersNewest(s: ServerState, published: seq<Published>) {
    && s.snapshotVersion == |published|
    && (published != [] ==> IsPublished(published, s.snapshotVersion, s.snapshot, s.snapshotTick))
    && forall id <- s.clients :: s.clients[id].sentSnapshotVersion <= s.snapshotVersion
  }

  /** While id is live, the server remembers having sent it version v or a later one. */
  ghost predicate Reached(s: ServerState, id: nat, v: nat) {
    id in s.clients ==> v <= s.clients[id].sentSnapshotVersion
  }

  ghost predicate ShownOk(n: Node, s: ServerState, published: seq<Published>) {
    && Increasing(n.versions) && (forall v <- n.versions :: 1 <= v <= |published|)
    && Reached(s, n.c.id, Last(n.versions)) && n.c.id < s.nextId && (n.c.id == SERVER_ID ==> n.versions == [])
    && (n.c.latestSnapshot.Some? ==>
          var l := n.c.latestSnapshot.value; l.from == SERVER_ID && IsPublished(published, Last(n.versions), l.payload, l.tick))
  }

  /** A reply the client may still take brings a version it has not had. */
  ghost predicate CarriesNewer(n: Node, s: ServerState, published: seq<Published>, r: ReplyPacket) {
    Awaits(n, r.nonce) && r.reply.status == OK && r.reply.hasSnapshot ==>
      && Last(n.versions) < r.version && IsPublished(published, r.version, r.reply.snapshot, r.reply.snapshotTick)
      && Reached(s, n.c.id, r.version)
  }

  ghost predicate PublishOk(s: System) {
    && OffersNewest(s.server, s.published)
    && (forall p <- s.nodes :: ShownOk(s.nodes[p], s.server, s.published))
    && (forall r <- s.replies :: r.to in s.nodes ==> CarriesNewer(s.nodes[r.to], s.server, s.published, r))
    && (forall j <- s.joinReplies :: j.reply.status == OK ==> j.reply.id < s.server.nextId)
  }

  // ---- what a step may do -----------------------------------------------------------------------------

  /** Ids are not given out again, and what was sent stays sent. */
  ghost predicate Onward(s: ServerState, s': ServerState) {
    && s.nextId <= s'.nextId
    && forall id <- s'.clients :: id >= s.nextId
         || (id in s.clients && s.clients[id].sentSnapshotVersion <= s'.clients[id].sentSnapshotVersion)
  }

  ghost predicate Waits(n: Node, n': Node) {
    || n'.outstanding.None?
    || (n'.outstanding == n.outstanding && n'.c.id == n.c.id && n'.versions == n.versions)
    || n'.outstanding.value.nonce >= n.nextNonce
  }

  lemma StillNewer(n: Node, n': Node, s: ServerState, s': ServerState, published: seq<Published>, published': seq<Published>, r: ReplyPacket)
    requires CarriesNewer(n, s, published, r) && r.nonce < n.nextNonce && Waits(n, n')
    requires Onward(s, s') && published <= published' && n.c.id < s.nextId
    ensures CarriesNewer(n', s', published', r)
  {
  }

  lemma StillShown(n: Node, s: ServerState, s': ServerState, published: seq<Published>, published': seq<Published>)
    requires ShownOk(n, s, published) && Onward(s, s') && published <= published'
    ensures ShownOk(n, s', published')
  {
    assert forall v <- n.versions :: 1 <= v <= |published| <= |published'|;
  }

  lemma PublishKept(s: System, s': System)
    requires RosterOk(s) && PublishOk(s) && OffersNewest(s'.server, s'.published)
    requires Onward(s.server, s'.server) && s.published <= s'.published && s'.nodes.Keys == s.nodes.Keys
    requires forall p <- s.nodes :: Waits(s.nodes[p], s'.nodes[p]) && ShownOk(s'.nodes[p], s'.server, s'.published)
    requires forall r <- s'.replies :: r in s.replies || (r.to in s'.nodes && CarriesNewer(s'.nodes[r.to], s'.server, s'.published, r))
    requires forall j <- s'.joinReplies :: j.reply.status == OK ==> j.reply.id < s'.server.nextId
    ensures PublishOk(s')
  {
    forall r | r in s'.replies && r.to in s'.nodes ensures CarriesNewer(s'.nodes[r.to], s'.server, s'.published, r) {
      if r in s.replies {
        assert ReplyPaired(s.nodes, s.server.rosterLog, r) && ShownOk(s.nodes[r.to], s.server, s.published);
        StillNewer(s.nodes[r.to], s'.nodes[r.to], s.server, s'.server, s.published, s'.published, r);
      }
    }
  }

  lemma NodePublish(s: System, s': System, p: nat)
    requires RosterOk(s) && PublishOk(s) && p in s.nodes && p in s'.nodes
    requires s'.server == s.server && s'.published == s.published && s'.replies == s.replies && s'.joinReplies == s.joinReplies
    requires s'.nodes == s.nodes[p := s'.nodes[p]] && Waits(s.nodes[p], s'.nodes[p]) && ShownOk(s'.nodes[p], s.server, s.published)
    ensures PublishOk(s')
  {
    PublishKept(s, s');
  }

  lemma ServerPublishes(s: System, s': System)
    requires RosterOk(s) && PublishOk(s) && OffersNewest(s'.server, s'.published)
    requires Onward(s.server, s'.server) && s.published <= s'.published && s'.nodes == s.nodes
    requires forall r <- s'.replies :: r in s.replies || (r.to in s.nodes && CarriesNewer(s.nodes[r.to], s'.server, s'.published, r))
    requires forall j <- s'.joinReplies :: j.reply.status == OK ==> j.reply.id < s'.server.nextId
    ensures PublishOk(s')
  {
    forall p | p in s.nodes ensures ShownOk(s'.nodes[p], s'.server, s'.published) {
      StillShown(s.nodes[p], s.server, s'.server, s.published, s'.published);
    }
    PublishKept(s, s');
  }

  // ---- the steps --------------------------------------------------------------------------------------

  /** A fresh snapshot goes out with this reply only if it is newer than anything sent to this client. */
  lemma UpdateOffers(s: ServerState, published: seq<Published>, id: nat, req: UpdateRequest)
    requires ServerOk(s) && OffersNewest(s, published)
    ensures var (s', reply) := Update(s, id, req);
      && OffersNewest(s', published) && Onward(s, s') && s'.nextId == s.nextId
      && (reply.status == OK && reply.hasSnapshot ==>
            && id in s.clients && s.clients[id].sentSnapshotVersion < s.snapshotVersion && Reached(s', id, s.snapshotVersion)
            && IsPublished(published, s.snapshotVersion, reply.snapshot, reply.snapshotTick))
  {
  }

  lemma ServeUpdatePublish(s: System, request: RequestPacket, at: nat)
    requires RosterOk(s) && PublishOk(s) && request in s.requests
    ensures PublishOk(UpdateServed(s, request, at))
  {
    var s' := UpdateServed(s, request, at);
    UpdateOffers(s.server, s.published, at, request.req);
    assert RequestPaired(s.nodes, request) && ShownOk(s.nodes[request.from], s.server, s.published);
    var reply := Update(s.server, at, request.req).1;
    var packet := ReplyPacket(request.from, request.nonce, request.req.id, reply, s.server.snapshotVersion);
    assert CarriesNewer(s.nodes[request.from], s'.server, s.published, packet) by {
      assert AskedOk(s.nodes[request.from]);
      assert reply.status == OK ==> request.req.id == at;
    }
    ServerPublishes(s, s');
  }

  lemma HearShown(n: Node, s: ServerState, published: seq<Published>, packet: ReplyPacket)
    requires ShownOk(n, s, published) && CarriesNewer(n, s, published, packet) && Awaits(n, packet.nonce) && AskedOk(n)
    ensures ShownOk(Hear(n, packet), s, published) && Hear(n, packet).outstanding.None?
  {
    if packet.reply.status == OK && packet.reply.hasSnapshot {
      Advance(n.versions, packet.version);
    }
  }

  lemma HearReplyPublish(s: System, packet: ReplyPacket)
    requires RosterOk(s) && PublishOk(s) && packet in s.replies && packet.to in s.nodes && Awaits(s.nodes[packet.to], packet.nonce)
    ensures PublishOk(s.(nodes := s.nodes[packet.to := Hear(s.nodes[packet.to], packet)]))
  {
    HearShown(s.nodes[packet.to], s.server, s.published, packet);
    NodePublish(s, s.(nodes := s.nodes[packet.to := Hear(s.nodes[packet.to], packet)]), packet.to);
  }

  ghost predicate SameShown(n: Node, n': Node) {
    n'.versions == n.versions && n'.c.id == n.c.id && (n'.c.latestSnapshot == n.c.latestSnapshot || n'.c.latestSnapshot == None)
  }

  lemma ClientShows(s: System, step: Step)
    requires Enabled(s, step) && (ByClient(step) || step.StartUpdate? || step.StartLeave?)
    ensures var s' := Next(s, step);
      && step.p in s.nodes && step.p in s'.nodes && s'.nodes == s.nodes[step.p := s'.nodes[step.p]]
      && s'.server == s.server && s'.published == s.published && s'.replies == s.replies && s'.joinReplies == s.joinReplies
      && SameShown(s.nodes[step.p], s'.nodes[step.p]) && Waits(s.nodes[step.p], s'.nodes[step.p])
  {
  }

  lemma ClientPublish(s: System, step: Step)
    requires RosterOk(s) && PublishOk(s) && Enabled(s, step) && (ByClient(step) || step.StartUpdate? || step.StartLeave?)
    ensures PublishOk(Next(s, step))
  {
    ClientShows(s, step);
    NodePublish(s, Next(s, step), step.p);
  }

  lemma HearJoinPublish(s: System, heard: JoinReplyPacket)
    requires RosterOk(s) && PublishOk(s) && Enabled(s, HearJoin(heard))
    ensures PublishOk(Next(s, HearJoin(heard)))
  {
    var s' := s.(nodes := s.nodes[heard.to := s.nodes[heard.to].(c := JoinAnswered(s.nodes[heard.to].c, heard.reply))]);
    assert ShownOk(s.nodes[heard.to], s.server, s.published) && AskedOk(s.nodes[heard.to]);
    NodePublish(s, s', heard.to);
  }

  lemma JoinOffers(s: ServerState, published: seq<Published>, req: JoinRequest, port: Option<int>)
    requires ServerOk(s) && OffersNewest(s, published)
    ensures var (s', reply) := Join(s, req, port);
      && OffersNewest(s', published) && Onward(s, s') && (reply.status == OK ==> reply.id < s'.nextId)
  {
  }

  lemma ServeJoinPublish(s: System, join: JoinRequest, port: Option<int>)
    requires RosterOk(s) && PublishOk(s)
    ensures PublishOk(JoinServed(s, join, port))
  {
    JoinOffers(s.server, s.published, join, port);
    ServerPublishes(s, JoinServed(s, join, port));
  }

  ghost predicate Shows(s: System, s': System) {
    && s'.nodes == s.nodes && s'.replies == s.replies && s'.joinReplies == s.joinReplies && s.published <= s'.published
    && OffersNewest(s'.server, s'.published) && Onward(s.server, s'.server)
  }

  lemma SendShows(s: System, step: Step)
    requires OffersNewest(s.server, s.published) && (step.ServerSend? || step.ServerBroadcast?)
    ensures Shows(s, Next(s, step))
  {
  }

  lemma ServerShows(s: System, step: Step)
    requires OffersNewest(s.server, s.published) && Enabled(s, step) && (OffRoster(step) || step.TimeOut?)
    ensures Shows(s, Next(s, step))
  {
    if step.ServerSend? || step.ServerBroadcast? {
      SendShows(s, step);
    }
  }

  lemma ServerPublish(s: System, step: Step)
    requires RosterOk(s) && PublishOk(s) && Enabled(s, step) && (OffRoster(step) || step.TimeOut?)
    ensures PublishOk(Next(s, step))
  {
    ServerShows(s, step);
    ServerPublishes(s, Next(s, step));
  }

  lemma NetworkPublish(s: System, step: Step)
    requires RosterOk(s) && PublishOk(s) && Enabled(s, step) && Paired(s, step)
    requires step.ServeJoin? || step.ServeUpdate? || step.HearReply?
    ensures PublishOk(Next(s, step))
  {
    match step
    case ServeJoin(join, port) => ServeJoinPublish(s, join, port);
    case ServeUpdate(request, at) => ServeUpdatePublish(s, request, at);
    case HearReply(packet) => HearReplyPublish(s, packet);
  }

  lemma StepPublish(s: System, step: Step)
    requires RosterOk(s) && PublishOk(s) && Enabled(s, step) && Paired(s, step)
    ensures PublishOk(Next(s, step))
  {
    if step.HearJoin? {
      HearJoinPublish(s, step.heard);
    } else if ByClient(step) || step.StartUpdate? || step.StartLeave? {
      ClientPublish(s, step);
    } else if OffRoster(step) || step.TimeOut? {
      ServerPublish(s, step);
    } else {
      NetworkPublish(s, step);
    }
  }

  lemma {:induction false} RunPublish(s: System, steps: seq<Step>)
    requires RosterOk(s) && PublishOk(s) && Legal(s, steps, true)
    ensures PublishOk(After(s, steps))
    decreases |steps|
  {
    if steps != [] {
      StepRoster(s, steps[0]);
      StepPublish(s, steps[0]);
      RunPublish(Next(s, steps[0]), steps[1..]);
    }
  }

  lemma InitiallyPublishOk(s: System)
    requires Initial(s)
    ensures PublishOk(s)
  {
    forall p | p in s.nodes ensures ShownOk(s.nodes[p], s.server, s.published) {
      assert s.nodes[p].c == NewClient(p, s.nodes[p].c.hello, s.nodes[p].c.peerEndpoint);
    }
  }

  /** The versions a client accepts strictly increase, although replies are lost and repeated, and what it
      holds is exactly what the server published under the last of them. */
  lemma SnapshotsAdvance(s: System, steps: seq<Step>, p: nat)
    requires Initial(s) && Legal(s, steps, true) && p in After(s, steps).nodes
    ensures var t := After(s, steps);
      var n := t.nodes[p];
      && Increasing(n.versions) && (forall v <- n.versions :: 1 <= v <= |t.published|)
      && (n.c.latestSnapshot.Some? ==>
            && n.versions != [] && 1 <= Last(n.versions) <= |t.published|
            && n.c.latestSnapshot.value.payload == t.published[Last(n.versions) - 1].snapshot
            && n.c.latestSnapshot.value.tick == t.published[Last(n.versions) - 1].tick)
  {
    InitiallyRosterOk(s);
    InitiallyPublishOk(s);
    RunPublish(s, steps);
    assert ShownOk(After(s, steps).nodes[p], After(s, steps).server, After(s, steps).published);
  }
}
