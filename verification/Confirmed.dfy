/** What a client's scenes have come to on the server once they are answered, for runs in which a reply is heard
    only for the request it answers. */
module Confirmed {
  import opened Protocol
  import opened Server
  import opened Client
  import opened Session
  import Delivery
  import opened Roster
  import opened Pending
  import opened Holding
  import opened Newest

  /** Ids in use are below the next one. */
  ghost predicate Known(s: System) {
    && (forall p <- s.nodes :: s.nodes[p].c.id < s.server.nextId)
    && (forall q <- s.requests :: q.req.id < s.server.nextId)
  }

  lemma IdsKnown(s: System)
    requires Delivery.MessagesOk(s)
    ensures Known(s)
  {
    forall p | p in s.nodes ensures s.nodes[p].c.id < s.server.nextId {
      assert Delivery.NodeOk(s, p);
    }
    forall q | q in s.requests ensures q.req.id < s.server.nextId {
      assert Delivery.RequestOk(s, q);
    }
  }

  /** A reply answers a request that was sent, and an Ok one to client id a request whose scene was taken. */
  ghost predicate Replied(s: System, r: ReplyPacket, id: nat, handled: seq<RequestPacket>) {
    exists q :: q in s.requests && q.from == r.to && q.nonce == r.nonce && q.req.id == r.id
      && (r.id == id && r.reply.status == OK && q.scene > 0 ==> q in handled)
  }

  /** Only clients that are gone are called unknown. */
  ghost predicate Refused(s: ServerState, r: ReplyPacket) {
    r.id < s.nextId && (r.reply.status == UNKNOWN_CLIENT ==> r.id !in s.clients)
  }

  ghost predicate Covered(n: Node, handled: seq<RequestPacket>) {
    n.confirmed == 0 || exists q :: q in handled && q.scene >= n.confirmed
  }

  ghost predicate ConfirmedOk(s: System, id: nat, handled: seq<RequestPacket>) {
    && (forall r <- s.replies :: Replied(s, r, id, handled) && Refused(s.server, r))
    && (forall p <- s.nodes :: s.nodes[p].outstanding.Some? ==> PacketOf(p, s.nodes[p].outstanding.value) in s.requests)
    && (forall p <- s.nodes :: s.nodes[p].c.id == id && id in s.server.clients ==> Covered(s.nodes[p], handled))
  }

  // ---- steps of the server ----------------------------------------------------------------------------

  lemma ServerClients(s: System, step: Step)
    requires Enabled(s, step) && OnServer(step)
    ensures var t, t' := s.server, Next(s, step).server;
      t.nextId <= t'.nextId && forall i <- t'.clients :: i in t.clients || i >= t.nextId
  {
    if step.ServeUpdate? {
      UpdateClients(s.server, step.at, step.request.req);
    }
  }

  lemma UpdateClients(s: ServerState, at: nat, req: UpdateRequest)
    ensures var (s', reply) := Update(s, at, req);
      && s'.nextId == s.nextId && (forall i <- s'.clients :: i in s.clients)
      && (reply.status == OK ==> req.id == at && at in s.clients)
      && (reply.status == UNKNOWN_CLIENT ==> req.id == at && at !in s.clients)
  {
  }

  lemma MoreHandled(s: System, s': System, r: ReplyPacket, id: nat, handled: seq<RequestPacket>, more: seq<RequestPacket>)
    requires Replied(s, r, id, handled) && s'.requests >= s.requests
    ensures Replied(s', r, id, handled + more)
  {
    var q :| q in s.requests && q.from == r.to && q.nonce == r.nonce && q.req.id == r.id
      && (r.id == id && r.reply.status == OK && q.scene > 0 ==> q in handled);
    assert q in s'.requests;
  }

  lemma MoreCovered(n: Node, handled: seq<RequestPacket>, more: seq<RequestPacket>)
    requires Covered(n, handled)
    ensures Covered(n, handled + more)
  {
    if n.confirmed > 0 {
      var q :| q in handled && q.scene >= n.confirmed;
      assert q in handled + more;
    }
  }

  lemma NewReply(s: System, step: Step, id: nat, handled: seq<RequestPacket>, r: ReplyPacket)
    requires Known(s) && NumbersOk(s) && Enabled(s, step) && step.ServeUpdate?
    requires r in Next(s, step).replies && r !in s.replies
    ensures Replied(Next(s, step), r, id, handled + TookFor(s, step, id)) && Refused(s.server, r)
  {
    var q := step.request;
    UpdateClients(s.server, step.at, q.req);
    assert q in Next(s, step).requests && q.from == r.to && q.nonce == r.nonce && q.req.id == r.id;
    assert Numbered(s.nodes[q.from], q);
  }

  lemma ServerReplies(s: System, step: Step, id: nat, handled: seq<RequestPacket>)
    requires Known(s) && NumbersOk(s) && ConfirmedOk(s, id, handled) && Enabled(s, step) && OnServer(step)
    requires Next(s, step).requests == s.requests
    ensures var s' := Next(s, step);
      forall r <- s'.replies :: Replied(s', r, id, handled + TookFor(s, step, id)) && Refused(s'.server, r)
  {
    var s' := Next(s, step);
    ServerHolds(s, step, id);
    ServerClients(s, step);
    forall r | r in s'.replies ensures Replied(s', r, id, handled + TookFor(s, step, id)) && Refused(s'.server, r) {
      if r in s.replies {
        MoreHandled(s, s', r, id, handled, TookFor(s, step, id));
      } else {
        NewReply(s, step, id, handled, r);
      }
    }
  }

  lemma ServerKeepsConfirmed(s: System, step: Step, id: nat, handled: seq<RequestPacket>)
    requires Known(s) && NumbersOk(s) && ConfirmedOk(s, id, handled) && Enabled(s, step) && OnServer(step)
    ensures ConfirmedOk(Next(s, step), id, handled + TookFor(s, step, id))
  {
    var s' := Next(s, step);
    ServerHolds(s, step, id);
    ServerClients(s, step);
    ServerReplies(s, step, id, handled);
    forall p | p in s'.nodes && s'.nodes[p].c.id == id && id in s'.server.clients
      ensures Covered(s'.nodes[p], handled + TookFor(s, step, id))
    {
      MoreCovered(s.nodes[p], handled, TookFor(s, step, id));
    }
  }

  // ---- steps of a client ------------------------------------------------------------------------------

  /** The request that is waited for stays the same one, or none; nothing is newly confirmed. */
  ghost predicate Quiet(n: Node, n': Node) {
    && (n'.confirmed == 0 || (n'.confirmed == n.confirmed && n'.c.id == n.c.id))
    && (n'.outstanding.None? || n'.outstanding == n.outstanding)
  }

  lemma AppQuiet(s: System, step: Step)
    requires Enabled(s, step) && ByClient(step)
    ensures Quiet(s.nodes[step.p], Next(s, step).nodes[step.p])
  {
    AppOnwards(s, step);
  }

  lemma StartQuiet(s: System, step: Step)
    requires Enabled(s, step) && (step.StartUpdate? || step.StartLeave?)
    ensures var n, n' := s.nodes[step.p], Next(s, step).nodes[step.p];
      n'.confirmed == n.confirmed && n'.outstanding.Some?
  {
    StartOnwards(s, step);
  }

  /** The request that a client hears an answer to is the one it waits for, scene and all. */
  lemma SameRequest(s: System, p: nat, q: RequestPacket)
    requires NumbersOk(s) && RosterOk(s) && p in s.nodes && s.nodes[p].outstanding.Some?
    requires PacketOf(p, s.nodes[p].outstanding.value) in s.requests
    requires q in s.requests && q.from == p && q.nonce == s.nodes[p].outstanding.value.nonce
    ensures q.scene == s.nodes[p].outstanding.value.scene
  {
    var own := PacketOf(p, s.nodes[p].outstanding.value);
    assert RequestPaired(s.nodes, q) && RequestPaired(s.nodes, own);
    assert Numbered(s.nodes[p], q) && Numbered(s.nodes[p], own);
    assert Rising(q, own) && Rising(own, q);
  }

  lemma HearingConfirms(n: Node, packet: ReplyPacket)
    requires Awaits(n, packet.nonce)
    ensures var n', scene := Hear(n, packet), n.outstanding.value.scene;
      && n'.outstanding.None? && n'.c.id == n.c.id
      && (n'.confirmed == n.confirmed || (n'.confirmed == scene && packet.reply.status in {OK, UNKNOWN_CLIENT}))
  {
  }

  lemma HearKeepsCovered(s: System, packet: ReplyPacket, id: nat, handled: seq<RequestPacket>)
    requires NumbersOk(s) && RosterOk(s) && ConfirmedOk(s, id, handled)
    requires packet in s.replies && packet.to in s.nodes && Awaits(s.nodes[packet.to], packet.nonce)
    requires s.nodes[packet.to].c.id == id && id in s.server.clients
    ensures Covered(Hear(s.nodes[packet.to], packet), handled)
  {
    var n := s.nodes[packet.to];
    HearingConfirms(n, packet);
    assert Replied(s, packet, id, handled) && Refused(s.server, packet);
    var q :| q in s.requests && q.from == packet.to && q.nonce == packet.nonce && q.req.id == packet.id
      && (packet.id == id && packet.reply.status == OK && q.scene > 0 ==> q in handled);
    assert Numbered(n, q);
    SameRequest(s, packet.to, q);
    assert Covered(n, handled);
  }

  ghost predicate NodeConfirmed(n: Node, p: nat, requests: set<RequestPacket>, t: ServerState, id: nat, handled: seq<RequestPacket>) {
    && (n.outstanding.Some? ==> PacketOf(p, n.outstanding.value) in requests)
    && (n.c.id == id && id in t.clients ==> Covered(n, handled))
  }

  lemma QuietKeeps(n: Node, n': Node, p: nat, requests: set<RequestPacket>, t: ServerState, id: nat, handled: seq<RequestPacket>)
    requires NodeConfirmed(n, p, requests, t, id, handled) && Quiet(n, n')
    ensures NodeConfirmed(n', p, requests, t, id, handled)
  {
  }

  lemma ByClientKeeps(s: System, step: Step, id: nat, handled: seq<RequestPacket>)
    requires ConfirmedOk(s, id, handled) && Enabled(s, step) && ByClient(step)
    ensures forall p <- Next(s, step).nodes :: NodeConfirmed(Next(s, step).nodes[p], p, s.requests, s.server, id, handled)
  {
    AppOnwards(s, step);
    AppQuiet(s, step);
    QuietKeeps(s.nodes[step.p], Next(s, step).nodes[step.p], step.p, s.requests, s.server, id, handled);
  }

  lemma StartKeepsConfirmed(s: System, step: Step, id: nat, handled: seq<RequestPacket>)
    requires ConfirmedOk(s, id, handled) && Enabled(s, step) && (step.StartUpdate? || step.StartLeave?)
    ensures var s' := Next(s, step); forall p <- s'.nodes :: NodeConfirmed(s'.nodes[p], p, s'.requests, s.server, id, handled)
  {
    StartOnwards(s, step);
    StartQuiet(s, step);
  }

  lemma HearKeeps(s: System, packet: ReplyPacket, id: nat, handled: seq<RequestPacket>)
    requires NumbersOk(s) && RosterOk(s) && ConfirmedOk(s, id, handled)
    requires packet in s.replies && packet.to in s.nodes && Awaits(s.nodes[packet.to], packet.nonce)
    ensures NodeConfirmed(Hear(s.nodes[packet.to], packet), packet.to, s.requests, s.server, id, handled)
  {
    HearingConfirms(s.nodes[packet.to], packet);
    if s.nodes[packet.to].c.id == id && id in s.server.clients {
      HearKeepsCovered(s, packet, id, handled);
    }
  }

  lemma JoinQuiet(n: Node, heard: JoinReplyPacket)
    requires PendingOk(n)
    ensures Quiet(n, n.(c := JoinAnswered(n.c, heard.reply)))
  {
  }

  lemma NodesKeep(s: System, step: Step, id: nat, handled: seq<RequestPacket>)
    requires NumbersOk(s) && RosterOk(s) && ConfirmedOk(s, id, handled)
    requires Enabled(s, step) && Paired(s, step) && !OnServer(step)
    ensures var s' := Next(s, step); forall p <- s'.nodes :: NodeConfirmed(s'.nodes[p], p, s'.requests, s.server, id, handled)
  {
    if ByClient(step) {
      AppOnwards(s, step);
      ByClientKeeps(s, step, id, handled);
    } else if step.StartUpdate? || step.StartLeave? {
      StartKeepsConfirmed(s, step, id, handled);
    } else if step.HearReply? {
      HearKeeps(s, step.reply, id, handled);
    } else {
      var n := s.nodes[step.heard.to];
      JoinQuiet(n, step.heard);
      QuietKeeps(n, Next(s, step).nodes[step.heard.to], step.heard.to, s.requests, s.server, id, handled);
    }
  }

  lemma NodesAndReplies(s: System, s': System, id: nat, handled: seq<RequestPacket>)
    requires ConfirmedOk(s, id, handled)
    requires s'.server == s.server && s'.replies == s.replies && s'.requests >= s.requests
    requires forall p <- s'.nodes :: NodeConfirmed(s'.nodes[p], p, s'.requests, s.server, id, handled)
    ensures ConfirmedOk(s', id, handled)
  {
    forall r | r in s'.replies ensures Replied(s', r, id, handled) {
      MoreHandled(s, s', r, id, handled, []);
      assert handled + [] == handled;
    }
  }

  lemma ClientKeepsConfirmed(s: System, step: Step, id: nat, handled: seq<RequestPacket>)
    requires NumbersOk(s) && RosterOk(s) && ConfirmedOk(s, id, handled)
    requires Enabled(s, step) && Paired(s, step) && !OnServer(step)
    ensures ConfirmedOk(Next(s, step), id, handled)
  {
    ClientStepsOnwards(s, step);
    NodesKeep(s, step, id, handled);
    NodesAndReplies(s, Next(s, step), id, handled);
  }

  // ---- whole runs -------------------------------------------------------------------------------------

  ghost predicate AllOk(s: System, id: nat, handled: seq<RequestPacket>) {
    NumbersOk(s) && Delivery.MessagesOk(s) && RosterOk(s) && ConfirmedOk(s, id, handled)
  }

  lemma StepKeepsConfirmed(s: System, step: Step, id: nat, handled: seq<RequestPacket>)
    requires Known(s) && NumbersOk(s) && RosterOk(s) && ConfirmedOk(s, id, handled) && Enabled(s, step) && Paired(s, step)
    ensures ConfirmedOk(Next(s, step), id, handled + TookFor(s, step, id))
  {
    if OnServer(step) {
      ServerKeepsConfirmed(s, step, id, handled);
    } else {
      ClientKeepsConfirmed(s, step, id, handled);
      assert handled + TookFor(s, step, id) == handled;
    }
  }

  lemma StepKeepsAll(s: System, step: Step, id: nat, handled: seq<RequestPacket>)
    requires AllOk(s, id, handled) && Enabled(s, step) && Paired(s, step)
    ensures AllOk(Next(s, step), id, handled + TookFor(s, step, id))
  {
    IdsKnown(s);
    StepKeepsConfirmed(s, step, id, handled);
    StepKeepsNumbers(s, step);
    Delivery.StepKeeps(s, step);
    StepRoster(s, step);
  }

  lemma Grouping(a: seq<RequestPacket>, b: seq<RequestPacket>, c: seq<RequestPacket>)
    ensures a + b + c == a + (b + c) && a + [] == a && [] + a == a
  {
  }

  lemma {:induction false} RunKeepsAll(s: System, steps: seq<Step>, id: nat, handled: seq<RequestPacket>)
    requires AllOk(s, id, handled) && Legal(s, steps, true)
    ensures AllOk(After(s, steps), id, handled + Handled(s, steps, id))
    decreases |steps|
  {
    if steps == [] {
      Grouping(handled, [], []);
    } else {
      var next, took := Next(s, steps[0]), TookFor(s, steps[0], id);
      StepKeepsAll(s, steps[0], id, handled);
      Grouping(handled, took, Handled(next, steps[1..], id));
      RunKeepsAll(next, steps[1..], id, handled + took);
    }
  }

  /** In every paired run, whatever a connected client has had answered the server has taken, or a newer scene. */
  lemma ConfirmedIsCovered(s: System, steps: seq<Step>, p: nat)
    requires Initial(s) && Legal(s, steps, true)
    requires var t := After(s, steps); p in t.nodes && t.nodes[p].c.id in t.server.clients
    ensures var t := After(s, steps); Covered(t.nodes[p], Handled(s, steps, t.nodes[p].c.id))
  {
    var id := After(s, steps).nodes[p].c.id;
    InitiallyNumbered(s);
    Delivery.InitiallyOk(s);
    InitiallyRosterOk(s);
    RunKeepsAll(s, steps, id, []);
    Grouping(Handled(s, steps, id), [], []);
  }

  /** A connected client that has submitted a scene, waits for no answer and has nothing pending: the scene the
      server holds for it is the newest it submitted if and only if no request sent after the one handled last
      was handled before it with another scene. */
  lemma IdleHoldsNewest(s: System, steps: seq<Step>, p: nat)
    requires Initial(s) && Legal(s, steps, true)
    requires var t := After(s, steps);
      && p in t.nodes && t.nodes[p].c.id != SERVER_ID
      && t.nodes[p].c.id in t.server.clients && t.nodes[p].c.id in t.server.states
      && t.nodes[p].c.pendingState.None? && t.nodes[p].outstanding.None?
    ensures var t := After(s, steps);
      var n, handled := t.nodes[p], Handled(s, steps, t.nodes[p].c.id);
      && handled != [] && 1 <= Last(handled).scene <= |n.submitted|
      && t.server.states[n.c.id] == n.submitted[Last(handled).scene - 1]
      && (Last(handled).scene == |n.submitted| <==> NotOvertaken(handled))
  {
    var t := After(s, steps);
    var n, handled := t.nodes[p], Handled(s, steps, t.nodes[p].c.id);
    PairedIsLegal(s, steps);
    HandledFromOne(s, steps, p);
    HeldIsNewestExactlyWhen(s, steps, p);
    ConfirmedIsCovered(s, steps, p);
    assert PendingOk(n) && Last(handled) in handled;
  }
}
