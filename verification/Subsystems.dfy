/** Subsystem threads beside the simulation thread. Posted tasks run with the timeline mutex held exclusively,
    each subsystem callback with it held shared; time passes whenever it likes. */
module Subsystems {
  import opened Options
  import opened Steppers

  datatype Where = Outside | Between | InCallback

  /** ticks: every tick the callback was ever called with. */
  datatype Subsystem = Subsystem(stepper: Option<StepperState>, where: Where, ticks: seq<int>)

  datatype Threads = Threads(now: int, paused: bool, maxSteps: nat, subsystems: seq<Subsystem>)

  ghost predicate Initial(t: Threads) {
    forall i :: 0 <= i < |t.subsystems| ==> t.subsystems[i] == Subsystem(None, Outside, [])
  }

  datatype Step =
    | TimePasses(now: int)
    | RunTasks(paused: bool)       // any batch of posted tasks: pauses, speed and rate changes, ...
    | MakeStepper(i: nat)          // at a subsystem's first frame
    | BeginFrame(i: nat)
    | Look(i: nat)                 // the top of the loop: paused, nothing left, or one more callback
    | Return(i: nat)               // the callback ends and the lock is released

  /** A paused clock stands still. The exclusive lock waits for every callback in progress. */
  ghost predicate Enabled(t: Threads, step: Step) {
    match step
    case TimePasses(now) => if t.paused then now == t.now else t.now <= now
    case RunTasks(_) => forall i :: 0 <= i < |t.subsystems| ==> t.subsystems[i].where != InCallback
    case MakeStepper(i) => i < |t.subsystems| && t.subsystems[i].where == Outside && t.subsystems[i].stepper.None?
    case BeginFrame(i) => i < |t.subsystems| && t.subsystems[i].where == Outside && t.subsystems[i].stepper.Some?
    case Look(i) => i < |t.subsystems| && t.subsystems[i].where == Between && t.subsystems[i].stepper.Some?
    case Return(i) => i < |t.subsystems| && t.subsystems[i].where == InCallback
  }

  function Next(t: Threads, step: Step): Threads
    requires Enabled(t, step)
  {
    match step
    case TimePasses(now) => t.(now := now)
    case RunTasks(paused) => t.(paused := paused)
    case MakeStepper(i) => Set(t, i, t.subsystems[i].(stepper := Some(NewStepper(t.now, t.maxSteps))))
    case BeginFrame(i) => Set(t, i, t.subsystems[i].(stepper := Some(Begin(t.subsystems[i].stepper.value, t.now)), where := Between))
    case Look(i) =>
      var u := t.subsystems[i];
      if t.paused then Set(t, i, u.(stepper := Some(NewStepper(t.now, t.maxSteps)), where := Outside))
      else if !CanStep(u.stepper.value) then Set(t, i, u.(where := Outside))
      else
        var s := Stepped(u.stepper.value);
        Set(t, i, Subsystem(Some(s), InCallback, u.ticks + [s.consumed]))
    case Return(i) => Set(t, i, t.subsystems[i].(where := Between))
  }

  function Set(t: Threads, i: nat, u: Subsystem): Threads
    requires i < |t.subsystems|
  {
    t.(subsystems := t.subsystems[i := u])
  }

  // ---- the invariant --------------------------------------------------------------------------------

  /** Nothing is sampled or run ahead of time, and what was run is behind the stepper. */
  ghost predicate StepperOk(s: StepperState, ticks: seq<int>, now: int) {
    && s.consumed <= now && s.target <= now
    && forall tick <- ticks :: tick <= s.consumed
  }

  ghost predicate SubsystemOk(u: Subsystem, now: int, paused: bool) {
    && Increasing(u.ticks)
    && (u.where == InCallback ==> !paused)
    && (u.where != Outside ==> u.stepper.Some?)
    && (u.stepper.None? ==> u.ticks == [])
    && (u.stepper.Some? ==> StepperOk(u.stepper.value, u.ticks, now))
  }

  ghost predicate ThreadsOk(t: Threads) {
    forall i :: 0 <= i < |t.subsystems| ==> SubsystemOk(t.subsystems[i], t.now, t.paused)
  }

  lemma LookKeeps(u: Subsystem, now: int)
    requires SubsystemOk(u, now, false) && u.where == Between && CanStep(u.stepper.value)
    ensures var s := Stepped(u.stepper.value); SubsystemOk(Subsystem(Some(s), InCallback, u.ticks + [s.consumed]), now, false)
  {
    var s := Stepped(u.stepper.value);
    assert forall i :: 0 <= i < |u.ticks| ==> u.ticks[i] in u.ticks;
    assert forall tick <- u.ticks + [s.consumed] :: tick in u.ticks || tick == s.consumed;
  }

  lemma StepKeeps(t: Threads, step: Step)
    requires ThreadsOk(t) && Enabled(t, step)
    ensures ThreadsOk(Next(t, step))
  {
    if step.Look? && !t.paused && CanStep(t.subsystems[step.i].stepper.value) {
      LookKeeps(t.subsystems[step.i], t.now);
    }
  }

  ghost predicate Run(t: Threads, steps: seq<Step>)
    decreases |steps|
  {
    steps != [] ==> Enabled(t, steps[0]) && Run(Next(t, steps[0]), steps[1..])
  }

  ghost function After(t: Threads, steps: seq<Step>): Threads
    decreases |steps|
  {
    if steps == [] || !Enabled(t, steps[0]) then t else After(Next(t, steps[0]), steps[1..])
  }

  lemma {:induction false} RunKeeps(t: Threads, steps: seq<Step>)
    requires ThreadsOk(t) && Run(t, steps)
    ensures ThreadsOk(After(t, steps)) && |After(t, steps).subsystems| == |t.subsystems|
    decreases |steps|
  {
    if steps != [] {
      StepKeeps(t, steps[0]);
      RunKeeps(Next(t, steps[0]), steps[1..]);
    }
  }

  // ---- the theorems ---------------------------------------------------------------------------------

  /** In every interleaving: no callback is in progress while game time is paused; the ticks a subsystem is
      called with strictly increase over its whole life, although its stepper is made anew whenever it sees
      a pause; and none is called for before its time. */
  lemma SubsystemSafety(t: Threads, steps: seq<Step>, i: nat)
    requires Initial(t) && Run(t, steps) && i < |t.subsystems|
    ensures var t' := After(t, steps);
      && |t'.subsystems| == |t.subsystems|
      && (t'.subsystems[i].where == InCallback ==> !t'.paused)
      && Increasing(t'.subsystems[i].ticks)
      && forall tick <- t'.subsystems[i].ticks :: tick <= t'.now
  {
    assert ThreadsOk(t);
    RunKeeps(t, steps);
    assert SubsystemOk(After(t, steps).subsystems[i], After(t, steps).now, After(t, steps).paused);
  }

  ghost predicate StaysPaused(t: Threads, steps: seq<Step>)
    requires Run(t, steps)
    decreases |steps|
  {
    t.paused && (steps != [] ==> StaysPaused(Next(t, steps[0]), steps[1..]))
  }

  /** Once a pause has been posted and run, no callback starts until an unpause is: every tick that was
      sampled or due before the pause is discarded. */
  lemma {:induction false} NothingWhilePaused(t: Threads, steps: seq<Step>, i: nat)
    requires ThreadsOk(t) && Run(t, steps) && StaysPaused(t, steps) && i < |t.subsystems|
    ensures var t' := After(t, steps);
      |t'.subsystems| == |t.subsystems| && t'.subsystems[i].ticks == t.subsystems[i].ticks && t'.now == t.now
    decreases |steps|
  {
    if steps != [] {
      StepKeeps(t, steps[0]);
      NothingWhilePaused(Next(t, steps[0]), steps[1..], i);
    }
  }

  // ---- undisturbed ------------------------------------------------------------------------------------

  /** The rest of a frame's loop from stepper s, when nobody pauses: a callback for each tick, and out. */
  function Loop(i: nat, s: StepperState): seq<Step>
    decreases s.budget
  {
    if CanStep(s) then [Look(i), Return(i)] + Loop(i, Stepped(s)) else [Look(i)]
  }

  lemma {:induction false} LoopAlone(t: Threads, i: nat, s: StepperState)
    requires !t.paused && i < |t.subsystems| && t.subsystems[i].where == Between && t.subsystems[i].stepper == Some(s)
    ensures Run(t, Loop(i, s))
    ensures After(t, Loop(i, s)) == Set(t, i, Subsystem(Some(Finished(s)), Outside, t.subsystems[i].ticks + Ticks(s)))
    decreases s.budget
  {
    var steps, u := Loop(i, s), t.subsystems[i];
    if CanStep(s) {
      var s1 := Stepped(s);
      var t1 := Next(t, Look(i));
      var t2 := Next(t1, Return(i));
      assert steps[0] == Look(i) && steps[1..][0] == Return(i) && steps[1..][1..] == Loop(i, s1);
      LoopAlone(t2, i, s1);
      assert t2.subsystems[i].ticks + Ticks(s1) == u.ticks + Ticks(s);
      assert Set(t2, i, Subsystem(Some(Finished(s1)), Outside, u.ticks + Ticks(s)))
          == Set(t, i, Subsystem(Some(Finished(s)), Outside, u.ticks + Ticks(s)));
    } else {
      assert u.ticks + Ticks(s) == u.ticks;
      assert steps[1..] == [];
    }
  }

  /** A frame that nobody disturbs is legal, and calls back for exactly the ticks of a frame on its own. */
  lemma FrameAlone(t: Threads, i: nat, s: StepperState)
    requires !t.paused && i < |t.subsystems| && t.subsystems[i].where == Outside && t.subsystems[i].stepper == Some(s)
    ensures var begun := Begin(s, t.now);
      var steps := [BeginFrame(i)] + Loop(i, begun);
      && Run(t, steps)
      && After(t, steps) == t.(subsystems := t.subsystems[i :=
           Subsystem(Some(Finished(begun)), Outside, t.subsystems[i].ticks + Ticks(begun))])
  {
    var begun := Begin(s, t.now);
    var steps := [BeginFrame(i)] + Loop(i, begun);
    var t1 := Next(t, BeginFrame(i));
    assert steps[0] == BeginFrame(i) && steps[1..] == Loop(i, begun);
    LoopAlone(t1, i, begun);
  }
}
