/** A submitted scene is retried until an answer comes: it is lost only to a newer one. Holds for every run,
    paired or not. */
module Pending {
  import opened Options
  import opened Wire
  import opened Protocol
  import opened Client
  import opened Session

  /** The scene a request carries, as it would be kept for a retry. */
  function Carried(req: UpdateRequest): Option<ReceivedState> {
    if req.hasState then Some(ReceivedState(req.id, req.tick, req.state)) else None
  }

  /** A request on its way carries the scene it was given, and an older one only if a newer one is pending. */
  ghost predicate FlightOk(n: Node, f: Flight) {
    && f.req.id == n.c.id && f.scene <= |n.submitted| && (f.req.hasState <==> f.scene > 0)
    && (f.scene > 0 ==>
          && n.confirmed < f.scene && Carried(f.req) == Some(n.submitted[f.scene - 1])
          && (n.c.pendingState.Some? <==> f.scene < |n.submitted|))
  }

  ghost predicate PendingOk(n: Node) {
    && n.confirmed <= |n.submitted| && (forall r <- n.submitted :: r.from == n.c.id)
    && (n.c.pendingState.Some? ==> n.confirmed < |n.submitted| && n.c.pendingState == Some(n.submitted[|n.submitted| - 1]))
    && (n.outstanding.Some? ==> FlightOk(n, n.outstanding.value))
    && (n.confirmed < |n.submitted| ==>
          n.c.pendingState.Some? || (n.outstanding.Some? && n.outstanding.value.scene == |n.submitted|))
    && (n.c.id == SERVER_ID ==> n.submitted == [] && n.outstanding.None?)
  }

  lemma HearPending(n: Node, packet: ReplyPacket)
    requires PendingOk(n)
    ensures PendingOk(Hear(n, packet))
  {
  }

  lemma SubmitPending(n: Node, payload: Bytes, tick: int)
    requires PendingOk(n) && n.c.id != SERVER_ID
    ensures PendingOk(n.(c := Submit(n.c, payload, tick), submitted := n.submitted + [ReceivedState(n.c.id, tick, payload)]))
  {
  }

  lemma TakePending(n: Node)
    requires PendingOk(n) && n.c.id != SERVER_ID && n.outstanding.None?
    ensures PendingOk(Launch(n, TakeRequest(n.c).0, TakeRequest(n.c).1))
  {
  }

  lemma GiveUpPending(n: Node)
    requires PendingOk(n) && n.outstanding.Some?
    ensures PendingOk(n.(outstanding := None, c := KeepForRetry(n.c, n.outstanding.value.req)))
  {
  }

  /** Only a few steps touch what this is about. */
  ghost predicate SamePending(n: Node, n': Node) {
    && n'.c.pendingState == n.c.pendingState && n'.submitted == n.submitted && n'.confirmed == n.confirmed
    && (n'.outstanding == n.outstanding || (n.outstanding.None? && n'.outstanding.Some? && n'.outstanding.value.scene == 0
          && n'.outstanding.value.req.id == n.c.id && !n'.outstanding.value.req.hasState && n.c.id != SERVER_ID))
    && (n'.c.id == n.c.id || n.c.id == SERVER_ID)
  }

  ghost predicate TouchesPending(step: Step, p: nat) {
    || (step.HearReply? && step.reply.to == p) || (step.AppSubmit? && step.p == p)
    || (step.StartUpdate? && step.p == p) || (step.GiveUp? && step.p == p)
  }

  ghost predicate OnServer(step: Step) {
    || step.AskJoin? || step.ServeJoin? || step.ServeUpdate? || step.TimeOut? || step.ServerSend? || step.ServerBroadcast?
    || step.ServerPublish? || step.ServerDrain? || step.ServerDrainRoster? || step.ServerDrainStates? || step.ServerSwapDeparted?
  }

  lemma ServerSteps(s: System, step: Step)
    requires Enabled(s, step) && OnServer(step)
    ensures Next(s, step).nodes == s.nodes
  {
  }

  lemma ClientSteps(s: System, step: Step, p: nat)
    requires Enabled(s, step) && p in s.nodes && !OnServer(step) && !TouchesPending(step, p)
    ensures p in Next(s, step).nodes && SamePending(s.nodes[p], Next(s, step).nodes[p])
  {
  }

  lemma OtherSteps(s: System, step: Step, p: nat)
    requires Enabled(s, step) && p in s.nodes && !TouchesPending(step, p)
    ensures p in Next(s, step).nodes && SamePending(s.nodes[p], Next(s, step).nodes[p])
  {
    if OnServer(step) {
      ServerSteps(s, step);
    } else {
      ClientSteps(s, step, p);
    }
  }

  lemma OtherPending(n: Node, n': Node)
    requires PendingOk(n) && SamePending(n, n')
    ensures PendingOk(n')
  {
  }

  lemma NodePending(s: System, step: Step, p: nat)
    requires Enabled(s, step) && p in s.nodes && PendingOk(s.nodes[p])
    ensures p in Next(s, step).nodes && PendingOk(Next(s, step).nodes[p])
  {
    var n := s.nodes[p];
    if !TouchesPending(step, p) {
      OtherSteps(s, step, p);
      OtherPending(n, Next(s, step).nodes[p]);
    } else {
      match step
      case HearReply(packet) => HearPending(n, packet);
      case AppSubmit(_, payload, tick) => SubmitPending(n, payload, tick);
      case StartUpdate(_) => TakePending(n);
      case GiveUp(_) => GiveUpPending(n);
    }
  }

  lemma {:induction false} RunPending(s: System, steps: seq<Step>)
    requires Legal(s, steps, false) && forall p <- s.nodes :: PendingOk(s.nodes[p])
    ensures forall p <- After(s, steps).nodes :: PendingOk(After(s, steps).nodes[p])
    decreases |steps|
  {
    if steps != [] {
      var s' := Next(s, steps[0]);
      forall p | p in s'.nodes ensures PendingOk(s'.nodes[p]) {
        assert p in s.nodes;
        NodePending(s, steps[0], p);
      }
      RunPending(s', steps[1..]);
    }
  }

  /** Until a request that carries it is answered, the newest submitted scene is either waiting for the next
      request or travelling in the current one. */
  lemma NewestIsKept(s: System, steps: seq<Step>, p: nat)
    requires Initial(s) && Legal(s, steps, false) && p in After(s, steps).nodes
    ensures var n := After(s, steps).nodes[p];
      n.confirmed < |n.submitted| ==>
        var newest := Some(n.submitted[|n.submitted| - 1]);
        n.c.pendingState == newest || (n.outstanding.Some? && Carried(n.outstanding.value.req) == newest)
  {
    forall q | q in s.nodes ensures PendingOk(s.nodes[q]) {
      assert s.nodes[q].c == NewClient(q, s.nodes[q].c.hello, s.nodes[q].c.peerEndpoint);
    }
    RunPending(s, steps);
    assert PendingOk(After(s, steps).nodes[p]);
  }

  /** A request that fails gives its scene back unless a newer one was submitted while it was out. */
  lemma GiveUpKeeps(s: System, steps: seq<Step>, p: nat)
    requires Initial(s) && Legal(s, steps, false) && p in After(s, steps).nodes
    requires After(s, steps).nodes[p].outstanding.Some? && After(s, steps).nodes[p].outstanding.value.req.hasState
    ensures var n := After(s, steps).nodes[p];
      n.submitted != [] && KeepForRetry(n.c, n.outstanding.value.req).pendingState == Some(n.submitted[|n.submitted| - 1])
  {
    forall q | q in s.nodes ensures PendingOk(s.nodes[q]) {
      assert s.nodes[q].c == NewClient(q, s.nodes[q].c.hello, s.nodes[q].c.peerEndpoint);
    }
    RunPending(s, steps);
    assert PendingOk(After(s, steps).nodes[p]);
  }
}
