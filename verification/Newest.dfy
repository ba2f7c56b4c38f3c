/** Whether the scene the server holds for a client is the newest it was ever given. Requests carry the number of
    their scene among those the client submitted; they may be handled late, more than once and out of order. */
module Newest {
  import opened Options
  import opened Protocol
  import opened Server
  import opened Client
  import opened Session
  import Delivery
  import opened Pending
  import opened Holding

  function TookFor(s: System, step: Step, id: nat): seq<RequestPacket> { if Takes(s, step, id) then [step.request] else [] }

  /** The requests whose scenes the server takes from client id over a run, in the order it handles them. */
  ghost function Handled(s: System, steps: seq<Step>, id: nat): seq<RequestPacket>
    decreases |steps|
  {
    if steps == [] || !Enabled(s, steps[0]) then []
    else TookFor(s, steps[0], id) + Handled(Next(s, steps[0]), steps[1..], id)
  }

  lemma {:induction false} TakenAreHandled(s: System, steps: seq<Step>, id: nat)
    ensures |Taken(s, steps, id)| == |Handled(s, steps, id)|
    ensures forall i :: 0 <= i < |Handled(s, steps, id)| ==> Some(Taken(s, steps, id)[i]) == Carried(Handled(s, steps, id)[i].req)
    decreases |steps|
  {
    if steps != [] && Enabled(s, steps[0]) {
      TakenAreHandled(Next(s, steps[0]), steps[1..], id);
    }
  }

  // ---- numbers rise in the order of sending -----------------------------------------------------------

  /** A request with a scene carries the one its number names. */
  ghost predicate Numbered(n: Node, q: RequestPacket) {
    && q.req.id == n.c.id != SERVER_ID && q.nonce < n.nextNonce && q.scene <= |n.submitted|
    && (q.req.hasState <==> q.scene > 0) && (q.scene > 0 ==> Carried(q.req) == Some(n.submitted[q.scene - 1]))
  }

  /** A request that is sent later does not carry an earlier scene. */
  ghost predicate Rising(a: RequestPacket, b: RequestPacket) {
    a.from == b.from && a.scene > 0 && b.scene > 0 && a.nonce <= b.nonce ==> a.scene <= b.scene
  }

  ghost predicate NumbersOk(s: System) {
    && (forall p <- s.nodes :: PendingOk(s.nodes[p]))
    && (forall q <- s.requests :: q.from in s.nodes && Numbered(s.nodes[q.from], q))
    && (forall a <- s.requests, b <- s.requests :: Rising(a, b))
  }

  lemma StepOnwards(s: System, step: Step)
    requires Enabled(s, step)
    ensures Onwards(s, Next(s, step))
  {
    if OnServer(step) {
      ServerStepsOnwards(s, step);
    } else {
      ClientStepsOnwards(s, step);
    }
  }

  lemma StillNumbered(s: System, s': System, q: RequestPacket)
    requires Onwards(s, s') && q.from in s.nodes && Numbered(s.nodes[q.from], q)
    ensures Numbered(s'.nodes[q.from], q)
  {
    assert s'.nodes[q.from].submitted[..|s.nodes[q.from].submitted|] == s.nodes[q.from].submitted;
  }

  lemma NoNewRequest(s: System, step: Step)
    requires Enabled(s, step) && !step.StartUpdate? && !step.StartLeave?
    ensures Next(s, step).requests == s.requests
  {
  }

  /** The request that a step starts carries the newest scene submitted, or none. */
  lemma Started(s: System, step: Step)
    requires Enabled(s, step) && (step.StartUpdate? || step.StartLeave?) && PendingOk(s.nodes[step.p])
    ensures var s' := Next(s, step);
      exists q :: s'.requests == s.requests + {q} && q.from == step.p && step.p in s'.nodes && Numbered(s'.nodes[step.p], q)
        && q.nonce == s.nodes[step.p].nextNonce && (q.scene == 0 || q.scene == |s.nodes[step.p].submitted|)
  {
    var n := s.nodes[step.p];
    var req := if step.StartUpdate? then TakeRequest(n.c).1 else BuildRequest(n.c, LEAVE);
    var q := PacketOf(step.p, Flight(n.nextNonce, req, SceneNumber(n, req)));
    StartOnwards(s, step);
    assert Next(s, step).requests == s.requests + {q} && Numbered(Next(s, step).nodes[step.p], q);
  }

  lemma OneMoreRequest(s: System, s': System, q: RequestPacket)
    requires NumbersOk(s) && Onwards(s, s') && s'.requests == s.requests + {q}
    requires q.from in s.nodes && Numbered(s'.nodes[q.from], q)
    requires q.nonce == s.nodes[q.from].nextNonce && (q.scene == 0 || q.scene == |s.nodes[q.from].submitted|)
    ensures forall a <- s'.requests :: a.from in s'.nodes && Numbered(s'.nodes[a.from], a)
    ensures forall a <- s'.requests, b <- s'.requests :: Rising(a, b)
  {
    forall a | a in s.requests ensures a.from in s'.nodes && Numbered(s'.nodes[a.from], a) && Rising(a, q) && Rising(q, a) {
      StillNumbered(s, s', a);
    }
  }

  lemma StartKeepsNumbers(s: System, step: Step)
    requires NumbersOk(s) && Enabled(s, step) && (step.StartUpdate? || step.StartLeave?)
    requires Onwards(s, Next(s, step))
    ensures var s' := Next(s, step);
      && (forall q <- s'.requests :: q.from in s'.nodes && Numbered(s'.nodes[q.from], q))
      && (forall a <- s'.requests, b <- s'.requests :: Rising(a, b))
  {
    var s' := Next(s, step);
    Started(s, step);
    var q :| s'.requests == s.requests + {q} && q.from == step.p && step.p in s'.nodes && Numbered(s'.nodes[step.p], q)
      && q.nonce == s.nodes[step.p].nextNonce && (q.scene == 0 || q.scene == |s.nodes[step.p].submitted|);
    OneMoreRequest(s, s', q);
  }

  lemma StepKeepsNumbers(s: System, step: Step)
    requires NumbersOk(s) && Enabled(s, step)
    ensures NumbersOk(Next(s, step))
  {
    var s' := Next(s, step);
    StepOnwards(s, step);
    forall p | p in s'.nodes ensures PendingOk(s'.nodes[p]) {
      SameProcesses(s, step);
      NodePending(s, step, p);
    }
    if step.StartUpdate? || step.StartLeave? {
      StartKeepsNumbers(s, step);
    } else {
      NoNewRequest(s, step);
      forall q | q in s'.requests ensures q.from in s'.nodes && Numbered(s'.nodes[q.from], q) {
        StillNumbered(s, s', q);
      }
    }
  }

  lemma SameProcesses(s: System, step: Step)
    requires Enabled(s, step)
    ensures Next(s, step).nodes.Keys == s.nodes.Keys
  {
    if OnServer(step) {
      ServerSteps(s, step);
    } else {
      ClientStepsOnwards(s, step);
    }
  }

  lemma {:induction false} RunKeepsNumbers(s: System, steps: seq<Step>)
    requires NumbersOk(s) && Legal(s, steps, false)
    ensures NumbersOk(After(s, steps)) && After(s, steps).requests >= s.requests
    decreases |steps|
  {
    if steps != [] {
      StepKeepsNumbers(s, steps[0]);
      StepOnwards(s, steps[0]);
      RunKeepsNumbers(Next(s, steps[0]), steps[1..]);
    }
  }

  lemma {:induction false} HandledWereSent(s: System, steps: seq<Step>, id: nat)
    requires NumbersOk(s) && Legal(s, steps, false)
    ensures forall q <- Handled(s, steps, id) :: q in After(s, steps).requests && q.req.id == id && q.req.hasState
    decreases |steps|
  {
    if steps != [] {
      StepKeepsNumbers(s, steps[0]);
      RunKeepsNumbers(s, steps);
      RunKeepsNumbers(Next(s, steps[0]), steps[1..]);
      StepOnwards(s, steps[0]);
      HandledWereSent(Next(s, steps[0]), steps[1..], id);
    }
  }

  lemma InitiallyNumbered(s: System)
    requires Initial(s)
    ensures NumbersOk(s)
  {
    InitiallyHolding(s, 1);
  }

  // ---- the newest of those taken ----------------------------------------------------------------------

  function Last(handled: seq<RequestPacket>): RequestPacket
    requires handled != []
  {
    handled[|handled| - 1]
  }

  /** No scene handled is newer than the one handled last. */
  ghost predicate NewestLast(handled: seq<RequestPacket>) {
    handled != [] && forall q <- handled :: q.scene <= Last(handled).scene
  }

  /** Whatever was sent after the request handled last, but handled before it, carries the same scene. */
  ghost predicate NotOvertaken(handled: seq<RequestPacket>) {
    handled != [] && forall q <- handled :: q.nonce > Last(handled).nonce ==> q.scene == Last(handled).scene
  }

  ghost predicate SendOrder(handled: seq<RequestPacket>) {
    forall i, j :: 0 <= i <= j < |handled| ==> handled[i].nonce <= handled[j].nonce
  }

  /** One process, its scenes by their numbers, and numbers that rise with nonces. */
  ghost predicate FromOne(handled: seq<RequestPacket>, p: nat, n: Node) {
    && (forall q <- handled :: q.from == p && q.scene > 0 && Numbered(n, q))
    && (forall a <- handled, b <- handled :: Rising(a, b))
  }

  lemma HandledFromOne(s: System, steps: seq<Step>, p: nat)
    requires Initial(s) && Legal(s, steps, false)
    requires p in After(s, steps).nodes && After(s, steps).nodes[p].c.id != SERVER_ID
    ensures var t := After(s, steps); NumbersOk(t) && FromOne(Handled(s, steps, t.nodes[p].c.id), p, t.nodes[p])
  {
    var t := After(s, steps);
    var id := t.nodes[p].c.id;
    InitiallyNumbered(s);
    RunKeepsNumbers(s, steps);
    HandledWereSent(s, steps, id);
    forall q | q in Handled(s, steps, id) ensures q.from == p && q.scene > 0 && Numbered(t.nodes[p], q) {
      Delivery.IdsAreOwn(s, steps, p, q.from);
    }
  }

  /** At every point of every run in which the server holds a scene of client p, however late, often and out of
      order requests were handled: it is the scene of the request handled last, by its number; and it is the
      newest of all that were taken if and only if every request that was sent after that one, but handled
      before it, carries the same scene. */
  lemma HeldIsNewestExactlyWhen(s: System, steps: seq<Step>, p: nat)
    requires Initial(s) && Legal(s, steps, false)
    requires var t := After(s, steps);
      p in t.nodes && t.nodes[p].c.id != SERVER_ID && t.nodes[p].c.id in t.server.states
    ensures var t := After(s, steps);
      var n, handled := t.nodes[p], Handled(s, steps, t.nodes[p].c.id);
      && handled != [] && (forall q <- handled :: q.from == p && 1 <= q.scene <= |n.submitted|)
      && (forall q <- handled :: Carried(q.req) == Some(n.submitted[q.scene - 1]))
      && t.server.states[n.c.id] == n.submitted[Last(handled).scene - 1]
      && (NewestLast(handled) <==> NotOvertaken(handled))
  {
    var t := After(s, steps);
    var n, handled := t.nodes[p], Handled(s, steps, t.nodes[p].c.id);
    HandledFromOne(s, steps, p);
    HeldIsTakenLast(s, steps, n.c.id);
    TakenAreHandled(s, steps, n.c.id);
    assert Last(handled) in handled;
    NewestByNonce(handled, p, n);
  }

  lemma NewestByNonce(handled: seq<RequestPacket>, p: nat, n: Node)
    requires FromOne(handled, p, n)
    ensures NewestLast(handled) <==> NotOvertaken(handled)
  {
    if handled != [] {
      var last := Last(handled);
      assert last in handled;
      forall q | q in handled ensures q.scene <= last.scene <==> (q.nonce > last.nonce ==> q.scene == last.scene) {
        assert Rising(q, last) && Rising(last, q);
      }
    }
  }

  /** Handling requests in the order they were sent, repeated ones included, is enough. */
  lemma SendOrderSuffices(s: System, steps: seq<Step>, p: nat)
    requires Initial(s) && Legal(s, steps, false)
    requires p in After(s, steps).nodes && After(s, steps).nodes[p].c.id != SERVER_ID
    requires var handled := Handled(s, steps, After(s, steps).nodes[p].c.id); handled != [] && SendOrder(handled)
    ensures NewestLast(Handled(s, steps, After(s, steps).nodes[p].c.id))
  {
    var handled := Handled(s, steps, After(s, steps).nodes[p].c.id);
    HandledFromOne(s, steps, p);
    forall q | q in handled ensures q.nonce <= Last(handled).nonce {
      var i :| 0 <= i < |handled| && handled[i] == q;
    }
    NewestByNonce(handled, p, After(s, steps).nodes[p]);
  }

  // ---- what ticks tell ----------------------------------------------------------------------------------

  /** The application submits its scenes at strictly increasing ticks. */
  ghost predicate RisingTicks(submitted: seq<ReceivedState>) {
    forall i, j :: 0 <= i < j < |submitted| ==> submitted[i].tick < submitted[j].tick
  }

  lemma TicksAreNumbers(n: Node, a: RequestPacket, b: RequestPacket)
    requires RisingTicks(n.submitted) && Numbered(n, a) && Numbered(n, b) && a.scene > 0 && b.scene > 0
    ensures a.scene <= b.scene <==> a.req.tick <= b.req.tick
  {
    assert a.req.tick == n.submitted[a.scene - 1].tick && b.req.tick == n.submitted[b.scene - 1].tick;
  }

  lemma HandledOne(s: System, step: Step, id: nat)
    requires Enabled(s, step)
    ensures Legal(s, [step], false) && After(s, [step]) == Next(s, step) && Handled(s, [step], id) == TookFor(s, step, id)
  {
    assert [step][1..] == [] && Handled(Next(s, step), [], id) == [];
  }

  lemma {:induction false} HandledOneMore(s: System, steps: seq<Step>, step: Step, id: nat)
    requires Legal(s, steps, false) && Enabled(After(s, steps), step)
    ensures Legal(s, steps + [step], false) && After(s, steps + [step]) == Next(After(s, steps), step)
    ensures Handled(s, steps + [step], id)
         == Handled(s, steps, id) + TookFor(After(s, steps), step, id)
    decreases |steps|
  {
    if steps == [] {
      HandledOne(s, step, id);
      assert [] + [step] == [step];
    } else {
      assert (steps + [step])[1..] == steps[1..] + [step];
      HandledOneMore(Next(s, steps[0]), steps[1..], step, id);
    }
  }

  /** A guard that the server could take: while it holds the newest scene taken so far, from a client whose
      ticks rise, handling one more request with a scene keeps it so if and only if the request's tick is not
      below the tick of the scene held. */
  lemma TickGuard(s: System, steps: seq<Step>, p: nat, request: RequestPacket)
    requires Initial(s) && Legal(s, steps, false)
    requires var t := After(s, steps);
      && p in t.nodes && t.nodes[p].c.id != SERVER_ID && t.nodes[p].c.id in t.server.states
      && RisingTicks(t.nodes[p].submitted) && NewestLast(Handled(s, steps, t.nodes[p].c.id))
      && request in t.requests && t.nodes[p].c.id in t.server.clients
      && request.req.id == t.nodes[p].c.id && request.req.hasState
    ensures var t := After(s, steps);
      var id, more := t.nodes[p].c.id, steps + [ServeUpdate(request, t.nodes[p].c.id)];
      && Legal(s, more, false) && Handled(s, more, id) == Handled(s, steps, id) + [request]
      && (NewestLast(Handled(s, more, id)) <==> request.req.tick >= t.server.states[id].tick)
  {
    var t := After(s, steps);
    var n, id, handled := t.nodes[p], t.nodes[p].c.id, Handled(s, steps, t.nodes[p].c.id);
    HandledOneMore(s, steps, ServeUpdate(request, id), id);
    HandledFromOne(s, steps, p);
    HeldIsNewestExactlyWhen(s, steps, p);
    Delivery.IdsAreOwn(s, steps, p, request.from);
    var last := Last(handled);
    assert last in handled;
    TicksAreNumbers(n, last, request);
    assert Last(handled + [request]) == request && last in handled + [request];
  }

  // ---- an older scene can be what is held -------------------------------------------------------------

  lemma {:induction false} OneMore(s: System, steps: seq<Step>, step: Step)
    requires Legal(s, steps, true)
    requires Enabled(After(s, steps), step) && Paired(After(s, steps), step)
    ensures Legal(s, steps + [step], true) && After(s, steps + [step]) == Next(After(s, steps), step)
    decreases |steps|
  {
    if steps == [] {
      assert [step][1..] == [];
    } else {
      assert (steps + [step])[1..] == steps[1..] + [step];
      OneMore(Next(s, steps[0]), steps[1..], step);
    }
  }

  /** Submitting x and starting the request that carries it. */
  function Out(p: nat, x: ReceivedState): seq<Step> { [AppSubmit(p, x.payload, x.tick), StartUpdate(p)] }

  function FirstRequest(n: Node, p: nat, x: ReceivedState): RequestPacket {
    RequestPacket(p, n.nextNonce, TakeRequest(Submit(n.c, x.payload, x.tick)).1, |n.submitted| + 1)
  }

  function Waiting(n: Node, x: ReceivedState): Node {
    var (c, req) := TakeRequest(Submit(n.c, x.payload, x.tick));
    Launch(n.(c := Submit(n.c, x.payload, x.tick), submitted := n.submitted + [ReceivedState(n.c.id, x.tick, x.payload)]), c, req)
  }

  lemma GoesOut(t: System, p: nat, x: ReceivedState)
    requires p in t.nodes && t.nodes[p].c.id != SERVER_ID && t.nodes[p].outstanding.None?
    ensures var n, t' := t.nodes[p], After(t, Out(p, x));
      && Legal(t, Out(p, x), true) && t'.server == t.server && t'.nodes == t.nodes[p := Waiting(n, x)]
      && t'.requests == t.requests + {FirstRequest(n, p, x)}
  {
    var t1 := Next(t, AppSubmit(p, x.payload, x.tick));
    assert Out(p, x)[1..] == [StartUpdate(p)] && [StartUpdate(p)][1..] == [];
    assert After(t1, [StartUpdate(p)]) == Next(t1, StartUpdate(p));
  }

  function GivenUp(n: Node, x: ReceivedState): Node {
    var w := Waiting(n, x);
    w.(outstanding := None, c := KeepForRetry(w.c, w.outstanding.value.req))
  }

  lemma GivesUp(t: System, p: nat, n: Node, x: ReceivedState)
    requires p in t.nodes && t.nodes[p] == Waiting(n, x)
    ensures Enabled(t, GiveUp(p)) && Paired(t, GiveUp(p)) && Next(t, GiveUp(p)) == t.(nodes := t.nodes[p := GivenUp(n, x)])
  {
  }

  /** The request for y, started when the one for x was given up. */
  function SecondRequest(n: Node, p: nat, x: ReceivedState, y: ReceivedState): RequestPacket {
    FirstRequest(GivenUp(n, x), p, y)
  }

  lemma {:induction false} Chain(s: System, a: seq<Step>, b: seq<Step>)
    requires Legal(s, a, true) && Legal(After(s, a), b, true)
    ensures Legal(s, a + b, true) && After(s, a + b) == After(After(s, a), b)
    decreases |a|
  {
    if a == [] {
      assert a + b == b;
    } else {
      assert (a + b)[1..] == a[1..] + b;
      Chain(Next(s, a[0]), a[1..], b);
    }
  }

  /** A scene goes out, its request is given up, and a newer one goes out. */
  function Overtaking(p: nat, x: ReceivedState, y: ReceivedState): seq<Step> { Out(p, x) + [GiveUp(p)] + Out(p, y) }

  lemma BothRequests(t: System, p: nat, x: ReceivedState, y: ReceivedState)
    requires p in t.nodes && t.nodes[p].c.id == x.from == y.from != SERVER_ID && t.nodes[p].outstanding.None?
    ensures var n, t' := t.nodes[p], After(t, Overtaking(p, x, y));
      && Legal(t, Overtaking(p, x, y), true) && t'.server == t.server
      && p in t'.nodes && t'.nodes[p].submitted == n.submitted + [x] + [y] && t'.nodes[p].c.id == n.c.id
      && FirstRequest(n, p, x) in t'.requests && SecondRequest(n, p, x, y) in t'.requests
  {
    var n := t.nodes[p];
    GoesOut(t, p, x);
    var t1 := After(t, Out(p, x));
    GivesUp(t1, p, n, x);
    OneMore(t, Out(p, x), GiveUp(p));
    GoesOut(Next(t1, GiveUp(p)), p, y);
    Chain(t, Out(p, x) + [GiveUp(p)], Out(p, y));
  }

  lemma ServedHolds(t: System, request: RequestPacket, at: nat)
    requires request in t.requests && request.req.id == at && at in t.server.clients
    requires request.req.hasState && request.req.kind == UPDATE
    ensures var t' := Next(t, ServeUpdate(request, at));
      && t'.nodes == t.nodes && t'.requests == t.requests && at in t'.server.clients
      && at in t'.server.states && Some(t'.server.states[at]) == Carried(request.req)
  {
  }

  /** The server is meant to hold each client's newest scene. From every state with a connected client that
      waits for nothing, two scenes can be submitted so that the server ends up holding the older one. */
  lemma LateRequestHoldsOlder(t: System, p: nat, x: ReceivedState, y: ReceivedState)
    requires p in t.nodes && t.nodes[p].c.id in t.server.clients && t.nodes[p].outstanding.None?
    requires t.nodes[p].c.id == x.from == y.from != SERVER_ID
    ensures var n, id := t.nodes[p], t.nodes[p].c.id;
      var steps := Overtaking(p, x, y) + [ServeUpdate(SecondRequest(n, p, x, y), id)] + [ServeUpdate(FirstRequest(n, p, x), id)];
      var t' := After(t, steps);
      && Legal(t, steps, true) && p in t'.nodes && t'.nodes[p].submitted == n.submitted + [x] + [y] && t'.nodes[p].c.id == n.c.id
      && id in t'.server.states && t'.server.states[id] == x
  {
    var n, id := t.nodes[p], t.nodes[p].c.id;
    var steps, first, second := Overtaking(p, x, y), FirstRequest(n, p, x), SecondRequest(n, p, x, y);
    BothRequests(t, p, x, y);
    OneMore(t, steps, ServeUpdate(second, id));
    ServedHolds(After(t, steps), second, id);
    OneMore(t, steps + [ServeUpdate(second, id)], ServeUpdate(first, id));
    ServedHolds(After(t, steps + [ServeUpdate(second, id)]), first, id);
  }

  /** A join that is asked, served and heard, as the first thing that happens. */
  ghost function Joining(s: System, p: nat, port: int): seq<Step>
    requires p in s.nodes
  {
    var join := JoinRequestOf(s.nodes[p].c);
    [AskJoin(p), ServeJoin(join, Some(port)), HearJoin(JoinReplyPacket(join.token, JoinReply(OK, 1, port)))]
  }

  lemma JoinsFirst(s: System, p: nat, port: int)
    requires Initial(s) && p in s.nodes
    ensures var t := After(s, Joining(s, p, port));
      && Legal(s, Joining(s, p, port), true) && p in t.nodes && t.nodes[p].c.id == 1 && 1 in t.server.clients
      && t.nodes[p].outstanding.None? && t.nodes[p].submitted == []
  {
    var join := JoinRequestOf(s.nodes[p].c);
    var heard := JoinReplyPacket(join.token, JoinReply(OK, 1, port));
    assert s.nodes[p].c == NewClient(p, s.nodes[p].c.hello, s.nodes[p].c.peerEndpoint);
    var s1 := Next(s, AskJoin(p));
    assert Holder(map[], join.token, 0).None?;
    assert Holder(map[], join.token, 1).None?;
    var s2 := Next(s1, ServeJoin(join, Some(port)));
    assert heard in s2.joinReplies && 1 in s2.server.clients && s2.nodes == s.nodes;
    var s3 := Next(s2, HearJoin(heard));
    OneMore(s, [], AskJoin(p));
    assert [] + [AskJoin(p)] == [AskJoin(p)];
    OneMore(s, [AskJoin(p)], ServeJoin(join, Some(port)));
    assert [AskJoin(p)] + [ServeJoin(join, Some(port))] == [AskJoin(p), ServeJoin(join, Some(port))];
    OneMore(s, [AskJoin(p), ServeJoin(join, Some(port))], HearJoin(heard));
    assert [AskJoin(p), ServeJoin(join, Some(port))] + [HearJoin(heard)] == Joining(s, p, port);
  }

  /** One whole run from the start, for any two scenes: join, submit x, give its request up, submit y, and let
      both requests be handled, the first one last. */
  lemma LateFromTheStart(s: System, p: nat, port: int, x: ReceivedState, y: ReceivedState) returns (steps: seq<Step>)
    requires Initial(s) && p in s.nodes && x.from == y.from == 1
    ensures |steps| == 10 && Legal(s, steps, true)
    ensures var t := After(s, steps);
      p in t.nodes && t.nodes[p].c.id == 1 && t.nodes[p].submitted == [x, y] && 1 in t.server.states && t.server.states[1] == x
  {
    JoinsFirst(s, p, port);
    var t := After(s, Joining(s, p, port));
    var n := t.nodes[p];
    LateRequestHoldsOlder(t, p, x, y);
    var late := Overtaking(p, x, y) + [ServeUpdate(SecondRequest(n, p, x, y), 1)] + [ServeUpdate(FirstRequest(n, p, x), 1)];
    Chain(s, Joining(s, p, port), late);
    steps := Joining(s, p, port) + late;
    assert n.submitted + [x] + [y] == [x, y];
  }
}
