/** Which submitted scene the server holds for a client. Requests may be handled late and more than once, so
    it is the one of the request handled last, whatever was submitted or taken before. */
module Holding {
  import opened Protocol
  import opened Server
  import opened Client
  import opened Session
  import opened Roster
  import opened Pending

  /** The server takes the scene of a request that client id sent. */
  predicate Takes(s: System, step: Step, id: nat) {
    step.ServeUpdate? && step.at == id && step.request.req.id == id && id in s.server.clients && step.request.req.hasState
  }

  function TakenBy(s: System, step: Step, id: nat): seq<ReceivedState> {
    if Takes(s, step, id) then [Carried(step.request.req).value] else []
  }

  /** Every scene the server takes from client id over a run, in the order in which it does. */
  ghost function Taken(s: System, steps: seq<Step>, id: nat): seq<ReceivedState>
    decreases |steps|
  {
    if steps == [] || !Enabled(s, steps[0]) then []
    else TakenBy(s, steps[0], id) + Taken(Next(s, steps[0]), steps[1..], id)
  }

  /** The scene in a request is one that its sender submitted. */
  ghost predicate Genuine(s: System, q: RequestPacket) {
    && q.from in s.nodes && s.nodes[q.from].c.id == q.req.id != SERVER_ID
    && (q.req.hasState ==> Carried(q.req).value in s.nodes[q.from].submitted)
  }

  ghost predicate SubmittedBy(s: System, id: nat, x: ReceivedState) {
    exists p :: p in s.nodes && s.nodes[p].c.id == id && x in s.nodes[p].submitted
  }

  /** An Ok reply answers a request whose scene, if it had one, was taken. */
  ghost predicate Answered(s: System, r: ReplyPacket, taken: seq<ReceivedState>) {
    exists q :: q in s.requests && q.from == r.to && q.nonce == r.nonce && q.req.id == r.id
      && (q.req.hasState ==> Carried(q.req).value in taken)
  }

  ghost predicate HoldingOk(s: System, id: nat, taken: seq<ReceivedState>) {
    && (forall p <- s.nodes :: PendingOk(s.nodes[p]))
    && (forall q <- s.requests :: Genuine(s, q))
    && (forall x <- taken :: SubmittedBy(s, id, x))
    && (id in s.server.states ==> taken != [] && s.server.states[id] == taken[|taken| - 1])
    && (forall r <- s.replies :: r.id == id && r.reply.status == OK ==> Answered(s, r, taken))
  }

  // ---- steps ------------------------------------------------------------------------------------------

  /** Histories only grow, and a client keeps its id. */
  ghost predicate Onwards(s: System, s': System) {
    && s'.requests >= s.requests
    && forall p <- s.nodes :: p in s'.nodes && s.nodes[p].submitted <= s'.nodes[p].submitted
         && s.nodes[p].nextNonce <= s'.nodes[p].nextNonce
         && (s.nodes[p].c.id != SERVER_ID ==> s'.nodes[p].c.id == s.nodes[p].c.id)
  }

  lemma ServerStepsOnwards(s: System, step: Step)
    requires Enabled(s, step) && OnServer(step)
    ensures Onwards(s, Next(s, step))
  {
    ServerSteps(s, step);
  }

  ghost predicate NodeOnwards(n: Node, n': Node) {
    n.submitted <= n'.submitted && n.nextNonce <= n'.nextNonce && (n.c.id != SERVER_ID ==> n'.c.id == n.c.id)
  }

  lemma HearingOnwards(n: Node, packet: ReplyPacket)
    ensures NodeOnwards(n, Hear(n, packet))
  {
  }

  lemma AppOnwards(s: System, step: Step)
    requires Enabled(s, step) && ByClient(step)
    ensures var s' := Next(s, step);
      && step.p in s.nodes && step.p in s'.nodes && s'.nodes == s.nodes[step.p := s'.nodes[step.p]]
      && NodeOnwards(s.nodes[step.p], s'.nodes[step.p])
      && s'.server == s.server && s'.replies == s.replies && s'.requests == s.requests
  {
  }

  lemma StartOnwards(s: System, step: Step)
    requires Enabled(s, step) && (step.StartUpdate? || step.StartLeave?)
    ensures var s' := Next(s, step);
      && step.p in s.nodes && step.p in s'.nodes && s'.nodes == s.nodes[step.p := s'.nodes[step.p]]
      && s'.nodes[step.p].submitted == s.nodes[step.p].submitted && s'.nodes[step.p].c.id == s.nodes[step.p].c.id
      && s.nodes[step.p].nextNonce <= s'.nodes[step.p].nextNonce
      && s'.server == s.server && s'.replies == s.replies
      && s'.requests == s.requests + {PacketOf(step.p, s'.nodes[step.p].outstanding.value)}
  {
  }

  lemma ClientStepsOnwards(s: System, step: Step)
    requires Enabled(s, step) && !OnServer(step)
    ensures Onwards(s, Next(s, step)) && Next(s, step).server == s.server && Next(s, step).replies == s.replies
    ensures Next(s, step).nodes.Keys == s.nodes.Keys
  {
    if ByClient(step) {
      AppOnwards(s, step);
    } else if step.HearReply? {
      HearingOnwards(s.nodes[step.reply.to], step.reply);
    } else if step.HearJoin? {
      assert NodeOnwards(s.nodes[step.heard.to], Next(s, step).nodes[step.heard.to]);
    } else {
      StartOnwards(s, step);
    }
  }

  lemma StillGenuine(s: System, s': System, q: RequestPacket)
    requires Genuine(s, q) && Onwards(s, s')
    ensures Genuine(s', q)
  {
    var p := q.from;
    assert forall x <- s.nodes[p].submitted :: x in s'.nodes[p].submitted by {
      Within(s.nodes[p].submitted, s'.nodes[p].submitted);
    }
  }

  lemma Within(a: seq<ReceivedState>, b: seq<ReceivedState>)
    requires a <= b
    ensures forall x <- a :: x in b
  {
    forall x | x in a ensures x in b {
      var i :| 0 <= i < |a| && a[i] == x;
      assert b[i] == x;
    }
  }

  lemma StillSubmitted(s: System, s': System, id: nat, x: ReceivedState)
    requires SubmittedBy(s, id, x) && Onwards(s, s') && id != SERVER_ID
    ensures SubmittedBy(s', id, x)
  {
    var p :| p in s.nodes && s.nodes[p].c.id == id && x in s.nodes[p].submitted;
    Within(s.nodes[p].submitted, s'.nodes[p].submitted);
  }

  lemma StillAnswered(s: System, s': System, r: ReplyPacket, taken: seq<ReceivedState>, more: seq<ReceivedState>)
    requires Answered(s, r, taken) && Onwards(s, s')
    ensures Answered(s', r, taken + more)
  {
    var q :| q in s.requests && q.from == r.to && q.nonce == r.nonce && q.req.id == r.id
      && (q.req.hasState ==> Carried(q.req).value in taken);
    assert q in s'.requests;
  }

  /** What a step leaves of the held scenes: they may go, and the one just taken replaces what was held. */
  ghost predicate Holds(s: ServerState, s': ServerState, id: nat, took: seq<ReceivedState>) {
    |took| <= 1 && (id in s'.states ==>
      if took == [] then id in s.states && s'.states[id] == s.states[id] else s'.states[id] == took[0])
  }

  lemma UpdateHolds(s: ServerState, at: nat, req: UpdateRequest, id: nat, took: seq<ReceivedState>)
    requires took == if at == id && req.id == id && id in s.clients && req.hasState then [Carried(req).value] else []
    ensures Holds(s, Update(s, at, req).0, id, took)
    ensures Update(s, at, req).1.status == OK ==> req.id == at && at in s.clients
  {
  }

  lemma ServerHolds(s: System, step: Step, id: nat)
    requires Enabled(s, step) && OnServer(step)
    ensures Holds(s.server, Next(s, step).server, id, TakenBy(s, step, id))
    ensures Next(s, step).nodes == s.nodes && Next(s, step).requests == s.requests
    ensures !step.ServeUpdate? ==> Next(s, step).replies == s.replies
  {
    if step.ServeUpdate? {
      UpdateHolds(s.server, step.at, step.request.req, id, TakenBy(s, step, id));
    }
  }

  lemma ServedAnswers(s: System, request: RequestPacket, at: nat, id: nat, taken: seq<ReceivedState>)
    requires HoldingOk(s, id, taken) && request in s.requests && id != SERVER_ID
    ensures var s', took := UpdateServed(s, request, at), TakenBy(s, ServeUpdate(request, at), id);
      && (forall x <- took :: SubmittedBy(s', id, x))
      && (forall r <- s'.replies :: r.id == id && r.reply.status == OK ==> Answered(s', r, taken + took))
  {
    var s', took := UpdateServed(s, request, at), TakenBy(s, ServeUpdate(request, at), id);
    UpdateHolds(s.server, at, request.req, id, took);
    assert Genuine(s, request);
    forall r | r in s'.replies && r.id == id && r.reply.status == OK ensures Answered(s', r, taken + took) {
      if r in s.replies {
        StillAnswered(s, s', r, taken, took);
      } else {
        assert request in s'.requests && request.from == r.to && request.nonce == r.nonce && request.req.id == r.id;
      }
    }
  }

  lemma ServerAnswers(s: System, step: Step, id: nat, taken: seq<ReceivedState>)
    requires HoldingOk(s, id, taken) && Enabled(s, step) && OnServer(step) && id != SERVER_ID
    requires Onwards(s, Next(s, step))
    ensures var s', took := Next(s, step), TakenBy(s, step, id);
      && (forall x <- took :: SubmittedBy(s', id, x))
      && (forall r <- s'.replies :: r.id == id && r.reply.status == OK ==> Answered(s', r, taken + took))
  {
    var s', took := Next(s, step), TakenBy(s, step, id);
    if step.ServeUpdate? {
      ServedAnswers(s, step.request, step.at, id, taken);
    } else {
      ServerHolds(s, step, id);
      forall r | r in s'.replies && r.id == id && r.reply.status == OK ensures Answered(s', r, taken + took) {
        StillAnswered(s, s', r, taken, took);
      }
    }
  }

  lemma ServerKeeps(s: System, step: Step, id: nat, taken: seq<ReceivedState>)
    requires HoldingOk(s, id, taken) && Enabled(s, step) && OnServer(step) && id != SERVER_ID
    ensures HoldingOk(Next(s, step), id, taken + TakenBy(s, step, id))
  {
    var s', took := Next(s, step), TakenBy(s, step, id);
    ServerHolds(s, step, id);
    ServerStepsOnwards(s, step);
    ServerAnswers(s, step, id, taken);
    forall q | q in s'.requests ensures Genuine(s', q) {
      StillGenuine(s, s', q);
    }
    forall x | x in taken + took ensures SubmittedBy(s', id, x) {
      if x in taken {
        StillSubmitted(s, s', id, x);
      }
    }
  }

  /** A request starts with the pending scene, which is the newest submitted one, or with none. */
  lemma StartedGenuine(n: Node, p: nat, nonce: nat, req: UpdateRequest)
    requires PendingOk(n) && n.c.id != SERVER_ID && (req == TakeRequest(n.c).1 || req == BuildRequest(n.c, LEAVE))
    ensures req.id == n.c.id && (req.hasState ==> Carried(req).value in n.submitted)
  {
  }

  lemma StartedRequest(s: System, step: Step)
    requires Enabled(s, step) && (step.StartUpdate? || step.StartLeave?) && PendingOk(s.nodes[step.p])
    ensures var s' := Next(s, step);
      forall q <- s'.requests :: q in s.requests || Genuine(s', q)
  {
    var n := s.nodes[step.p];
    StartOnwards(s, step);
    StartedGenuine(n, step.p, n.nextNonce, if step.StartUpdate? then TakeRequest(n.c).1 else BuildRequest(n.c, LEAVE));
  }

  lemma ClientRequests(s: System, step: Step)
    requires Enabled(s, step) && !OnServer(step) && (forall p <- s.nodes :: PendingOk(s.nodes[p]))
    ensures forall q <- Next(s, step).requests :: q in s.requests || Genuine(Next(s, step), q)
  {
    if ByClient(step) {
      AppOnwards(s, step);
    } else if step.StartUpdate? || step.StartLeave? {
      StartedRequest(s, step);
    }
  }

  lemma AllPending(s: System, step: Step)
    requires Enabled(s, step) && (forall p <- s.nodes :: PendingOk(s.nodes[p]))
    ensures forall p <- s.nodes :: p in Next(s, step).nodes && PendingOk(Next(s, step).nodes[p])
  {
    forall p | p in s.nodes ensures p in Next(s, step).nodes && PendingOk(Next(s, step).nodes[p]) {
      NodePending(s, step, p);
    }
  }

  lemma OnwardsKeeps(s: System, s': System, id: nat, taken: seq<ReceivedState>)
    requires HoldingOk(s, id, taken) && Onwards(s, s') && s'.server == s.server && s'.replies == s.replies && id != SERVER_ID
    requires forall p <- s'.nodes :: PendingOk(s'.nodes[p])
    requires forall q <- s'.requests :: q in s.requests || Genuine(s', q)
    ensures HoldingOk(s', id, taken)
  {
    forall q | q in s'.requests ensures Genuine(s', q) {
      if q in s.requests {
        StillGenuine(s, s', q);
      }
    }
    forall x | x in taken ensures SubmittedBy(s', id, x) {
      StillSubmitted(s, s', id, x);
    }
    assert taken + [] == taken;
    forall r | r in s'.replies && r.id == id && r.reply.status == OK ensures Answered(s', r, taken) {
      StillAnswered(s, s', r, taken, []);
    }
  }

  lemma ClientKeeps(s: System, step: Step, id: nat, taken: seq<ReceivedState>)
    requires HoldingOk(s, id, taken) && Enabled(s, step) && !OnServer(step) && id != SERVER_ID
    ensures HoldingOk(Next(s, step), id, taken)
  {
    ClientStepsOnwards(s, step);
    AllPending(s, step);
    ClientRequests(s, step);
    OnwardsKeeps(s, Next(s, step), id, taken);
  }

  lemma StepHolds(s: System, step: Step, id: nat, taken: seq<ReceivedState>)
    requires HoldingOk(s, id, taken) && Enabled(s, step) && id != SERVER_ID
    ensures HoldingOk(Next(s, step), id, taken + TakenBy(s, step, id))
  {
    if OnServer(step) {
      ServerKeeps(s, step, id, taken);
    } else {
      ClientKeeps(s, step, id, taken);
      assert taken + TakenBy(s, step, id) == taken;
    }
  }

  lemma Regroup(a: seq<ReceivedState>, b: seq<ReceivedState>, c: seq<ReceivedState>)
    ensures a + b + c == a + (b + c) && a + [] == a
  {
  }

  lemma {:induction false} RunHolds(s: System, steps: seq<Step>, id: nat, taken: seq<ReceivedState>)
    requires HoldingOk(s, id, taken) && Legal(s, steps, false) && id != SERVER_ID
    ensures HoldingOk(Session.After(s, steps), id, taken + Taken(s, steps, id))
    decreases |steps|
  {
    if steps == [] {
      Regroup(taken, [], []);
    } else {
      var next, took := Next(s, steps[0]), TakenBy(s, steps[0], id);
      StepHolds(s, steps[0], id, taken);
      Regroup(taken, took, Taken(next, steps[1..], id));
      RunHolds(next, steps[1..], id, taken + took);
    }
  }

  // ---- the theorems -----------------------------------------------------------------------------------

  lemma InitiallyHolding(s: System, id: nat)
    requires Initial(s)
    ensures HoldingOk(s, id, [])
  {
    forall q | q in s.nodes ensures PendingOk(s.nodes[q]) {
      assert s.nodes[q].c == NewClient(q, s.nodes[q].c.hello, s.nodes[q].c.peerEndpoint);
    }
  }

  lemma AlwaysHolding(s: System, steps: seq<Step>, id: nat)
    requires Initial(s) && Legal(s, steps, false) && id != SERVER_ID
    ensures HoldingOk(Session.After(s, steps), id, Taken(s, steps, id))
  {
    InitiallyHolding(s, id);
    RunHolds(s, steps, id, []);
    assert [] + Taken(s, steps, id) == Taken(s, steps, id);
  }

  /** Every scene the server ever takes from a client is one that it submitted, and while the server holds one
      it is the one taken last. */
  lemma HeldIsTakenLast(s: System, steps: seq<Step>, id: nat)
    requires Initial(s) && Legal(s, steps, false) && id != SERVER_ID
    ensures var t, taken := Session.After(s, steps), Taken(s, steps, id);
      && (forall x <- taken :: SubmittedBy(t, id, x))
      && (id in t.server.states ==> taken != [] && t.server.states[id] == taken[|taken| - 1])
  {
    AlwaysHolding(s, steps, id);
  }

  lemma HeardRequest(t: System, packet: ReplyPacket, taken: seq<ReceivedState>)
    requires RosterOk(t) && packet in t.replies && packet.to in t.nodes && packet.reply.status == OK
    requires Awaits(t.nodes[packet.to], packet.nonce)
    requires HoldingOk(t, t.nodes[packet.to].c.id, taken)
    ensures var n := t.nodes[packet.to];
      n.outstanding.Some? && (n.outstanding.value.req.hasState ==> Carried(n.outstanding.value.req).value in taken)
  {
    assert ReplyPaired(t.nodes, t.server.rosterLog, packet);
    assert Answered(t, packet, taken);
    var q :| q in t.requests && q.from == packet.to && q.nonce == packet.nonce && q.req.id == packet.id
      && (q.req.hasState ==> Carried(q.req).value in taken);
    assert RequestPaired(t.nodes, q);
  }

  /** In a paired run, a scene counts as confirmed only if the server has taken it: when a client hears Ok
      for a request with a scene, that scene is among those taken. */
  lemma ConfirmedWasTaken(s: System, steps: seq<Step>, packet: ReplyPacket)
    requires Initial(s) && Legal(s, steps, true)
    requires Enabled(Session.After(s, steps), HearReply(packet)) && Paired(Session.After(s, steps), HearReply(packet))
    requires packet.reply.status == OK
    ensures var t := Session.After(s, steps);
      var n := t.nodes[packet.to];
      n.outstanding.Some? && (n.outstanding.value.req.hasState ==>
        Carried(n.outstanding.value.req).value in Taken(s, steps, n.c.id))
  {
    var t := Session.After(s, steps);
    var id := t.nodes[packet.to].c.id;
    InitiallyRosterOk(s);
    RunRoster(s, steps);
    assert AskedOk(t.nodes[packet.to]);
    PairedIsLegal(s, steps);
    AlwaysHolding(s, steps, id);
    HeardRequest(t, packet, Taken(s, steps, id));
  }

  lemma {:induction false} PairedIsLegal(s: System, steps: seq<Step>)
    requires Legal(s, steps, true)
    ensures Legal(s, steps, false)
    decreases |steps|
  {
    if steps != [] {
      PairedIsLegal(Next(s, steps[0]), steps[1..]);
    }
  }
}
