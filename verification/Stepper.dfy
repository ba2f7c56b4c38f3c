/** Fixed steps on a timeline: each frame runs the ticks that came due since the last one, up to a cap. */
module Steppers {
  import opened Timelines

  datatype StepperState = StepperState(consumed: int, target: int, dropped: int, budget: nat, maxSteps: nat)

  function NewStepper(now: int, maxSteps: nat): StepperState { StepperState(now, now, 0, 0, maxSteps) }

  function Min(a: int, b: int): int { if a < b then a else b }

  function Begin(s: StepperState, now: int): StepperState {
    var lost := if now - s.consumed > s.maxSteps then now - s.consumed - s.maxSteps else 0;
    s.(target := now, budget := s.maxSteps, consumed := s.consumed + lost, dropped := s.dropped + lost)
  }

  predicate CanStep(s: StepperState) { s.budget != 0 && s.consumed < s.target }

  function Stepped(s: StepperState): StepperState
    requires CanStep(s)
  {
    s.(budget := s.budget - 1, consumed := s.consumed + 1)
  }

  class Stepper {
    const timeline: Timeline
    const maxSteps: nat
    var consumed: int
    var target: int
    var dropped: int
    var budget: nat

    ghost function State(): StepperState
      reads this
    {
      StepperState(consumed, target, dropped, budget, maxSteps)
    }

    constructor (timeline: Timeline, maxSteps: nat)
      requires timeline.Valid()
      ensures State() == NewStepper(timeline.Now(), maxSteps) && this.timeline == timeline
    {
      this.timeline, this.maxSteps := timeline, maxSteps;
      consumed, target, dropped, budget := timeline.Now(), timeline.Now(), 0, 0;
    }

    method BeginFrame()
      requires timeline.Valid()
      modifies this
      ensures State() == Begin(old(State()), timeline.Now())
    {
      target := timeline.Now();
      budget := maxSteps;
      var pending := target - consumed;
      if pending > maxSteps {
        var lost := pending - maxSteps;
        consumed := consumed + lost;
        dropped := dropped + lost;
      }
    }

    method Step() returns (ran: bool)
      modifies this
      ensures ran == CanStep(old(State()))
      ensures State() == if ran then Stepped(old(State())) else old(State())
    {
      if budget == 0 || consumed >= target {
        return false;
      }
      budget := budget - 1;
      consumed := consumed + 1;
      ran := true;
    }
  }

  ghost predicate Increasing(ticks: seq<int>) { forall i, j :: 0 <= i < j < |ticks| ==> ticks[i] < ticks[j] }

  // ---- a frame --------------------------------------------------------------------------------------

  /** The ticks the step loop runs, in order. */
  function Ticks(s: StepperState): seq<int>
    decreases s.budget
  {
    if CanStep(s) then [s.consumed + 1] + Ticks(Stepped(s)) else []
  }

  /** Where the step loop leaves the stepper. */
  function Finished(s: StepperState): StepperState
    decreases s.budget
  {
    if CanStep(s) then Finished(Stepped(s)) else s
  }

  lemma {:induction false} LoopRuns(s: StepperState)
    requires s.consumed <= s.target
    ensures |Ticks(s)| == Min(s.budget, s.target - s.consumed)
    ensures forall i :: 0 <= i < |Ticks(s)| ==> Ticks(s)[i] == s.consumed + 1 + i
    ensures Finished(s) == s.(consumed := s.consumed + |Ticks(s)|, budget := s.budget - |Ticks(s)|)
    decreases s.budget
  {
    if CanStep(s) {
      LoopRuns(Stepped(s));
    }
  }

  /** A frame runs exactly the newest min(pending, cap) ticks, ending at the time it sampled; the older ones
      are dropped, and every tick is either run or dropped. */
  lemma FrameRuns(s: StepperState, now: int)
    requires s.consumed <= now
    ensures var ticks, s' := Ticks(Begin(s, now)), Finished(Begin(s, now));
      && |ticks| == Min(now - s.consumed, s.maxSteps)
      && (forall i :: 0 <= i < |ticks| ==> ticks[i] == now - |ticks| + 1 + i)
      && s'.consumed == now && s'.target == now && s'.maxSteps == s.maxSteps
      && |ticks| + (s'.dropped - s.dropped) == now - s.consumed
  {
    LoopRuns(Begin(s, now));
  }

  /** tickIndex is documented to name the previous frame's last tick until the first step of a frame. That
      holds exactly when the frame drops nothing: a dropped backlog moves it at once. */
  lemma IndexBeforeSteps(s: StepperState, now: int)
    requires s.consumed <= now
    ensures Begin(s, now).consumed == s.consumed <==> now - s.consumed <= s.maxSteps
    ensures exists t: StepperState, later: int :: t.consumed <= later && Begin(t, later).consumed != t.consumed
  {
    var t := NewStepper(0, 5);
    assert Begin(t, 7).consumed == 2;
  }

  // ---- many frames ----------------------------------------------------------------------------------

  ghost predicate Rising(from: int, nows: seq<int>)
    decreases |nows|
  {
    nows != [] ==> from <= nows[0] && Rising(nows[0], nows[1..])
  }

  function AfterFrames(s: StepperState, nows: seq<int>): StepperState
    requires Rising(s.consumed, nows)
    decreases |nows|
  {
    if nows == [] then s else
    FrameRuns(s, nows[0]);
    AfterFrames(Finished(Begin(s, nows[0])), nows[1..])
  }

  function AllTicks(s: StepperState, nows: seq<int>): seq<int>
    requires Rising(s.consumed, nows)
    decreases |nows|
  {
    if nows == [] then [] else
    FrameRuns(s, nows[0]);
    Ticks(Begin(s, nows[0])) + AllTicks(Finished(Begin(s, nows[0])), nows[1..])
  }

  lemma Ascending(a: seq<int>, b: seq<int>, between: int)
    requires Increasing(a) && Increasing(b)
    requires (forall x <- a :: x <= between) && (forall x <- b :: between < x)
    ensures Increasing(a + b)
  {
    assert forall i :: 0 <= i < |a| ==> a[i] in a;
    assert forall i :: 0 <= i < |b| ==> b[i] in b;
  }

  /** Over any run of frames: ticks run and ticks dropped add up to the time that passed, no tick is run
      twice, none out of order, and none before its time. */
  lemma {:induction false} Accounting(s: StepperState, nows: seq<int>)
    requires Rising(s.consumed, nows)
    ensures var ticks, s' := AllTicks(s, nows), AfterFrames(s, nows);
      && |ticks| + (s'.dropped - s.dropped) == s'.consumed - s.consumed
      && s'.consumed == (if nows == [] then s.consumed else nows[|nows| - 1]) && s.consumed <= s'.consumed
      && (forall i :: 0 <= i < |ticks| ==> s.consumed < ticks[i] <= s'.consumed)
      && Increasing(ticks)
    decreases |nows|
  {
    if nows != [] {
      var s1 := Finished(Begin(s, nows[0]));
      FrameRuns(s, nows[0]);
      Accounting(s1, nows[1..]);
      Ascending(Ticks(Begin(s, nows[0])), AllTicks(s1, nows[1..]), s1.consumed);
    }
  }

  /** Without a cap that bites, every tick is run. */
  lemma NothingDropped(s: StepperState, now: int)
    requires s.consumed <= now <= s.consumed + s.maxSteps
    ensures Finished(Begin(s, now)).dropped == s.dropped
    ensures forall tick :: s.consumed < tick <= now ==> tick in Ticks(Begin(s, now))
  {
    var ticks := Ticks(Begin(s, now));
    FrameRuns(s, now);
    forall tick | s.consumed < tick <= now ensures tick in ticks {
      assert ticks[tick - s.consumed - 1] == tick;
    }
  }
}
