/** The simulation's frames over whole runs: game time goes on between them, tasks pause and resume it. */
module Frames {
  import opened Options
  import opened Steppers

  datatype Shown = Shown(tick: int, paused: bool, dropped: int)

  /** start: the tick the first frame found. ran: every tick run. shown: every frame published. */
  datatype Sim = Sim(now: int, paused: bool, maxSteps: nat, stepper: Option<StepperState>, start: int, ran: seq<int>, shown: seq<Shown>)

  datatype Event =
    | Passes(now: int)
    | Frame(paused: bool, tasks: bool)   // whether tasks were run, and whether the clock stands still after them

  ghost predicate Possible(s: Sim, e: Event) {
    match e
    case Passes(now) => if s.paused then now == s.now else s.now <= now
    case Frame(paused, tasks) => tasks || paused == s.paused
  }

  function Happen(s: Sim, e: Event): Sim
  {
    match e
    case Passes(now) => s.(now := now)
    case Frame(paused, tasks) =>
      var begun := Begin(Before(s), s.now);
      var ticks, stepper := Ticks(begun), Finished(begun);
      s.(paused := paused, stepper := Some(stepper), start := if s.stepper.None? then s.now else s.start,
         ran := s.ran + ticks,
         shown := if ticks != [] || tasks || s.stepper.None?
                  then s.shown + [Shown(stepper.consumed, paused, stepper.dropped)] else s.shown)
  }

  ghost predicate SimOk(s: Sim) {
    && Increasing(s.ran)
    && (s.stepper.None? ==> s.ran == [] && s.shown == [])
    && (s.stepper.Some? ==>
          var st := s.stepper.value;
          && st.maxSteps == s.maxSteps && s.start <= st.consumed <= s.now && |s.ran| + st.dropped == st.consumed - s.start
          && (forall tick <- s.ran :: s.start < tick <= st.consumed))
    && (s.paused && s.shown != [] && s.shown[|s.shown| - 1].paused ==>
          s.shown[|s.shown| - 1].tick == s.now && s.stepper.Some? && s.stepper.value.consumed == s.now)
  }

  /** The stepper a frame starts from. */
  function Before(s: Sim): StepperState {
    if s.stepper.Some? then s.stepper.value else NewStepper(s.now, s.maxSteps)
  }

  lemma FrameCounts(s: Sim, e: Event)
    requires SimOk(s) && e.Frame?
    ensures var s', ticks := Happen(s, e), Ticks(Begin(Before(s), s.now));
      && s'.ran == s.ran + ticks && |ticks| == Min(s.now - Before(s).consumed, s.maxSteps)
      && (forall i :: 0 <= i < |ticks| ==> ticks[i] == s.now - |ticks| + 1 + i)
      && s'.stepper.Some? && s'.stepper.value.consumed == s.now && s'.stepper.value.maxSteps == s.maxSteps
      && |ticks| + (s'.stepper.value.dropped - Before(s).dropped) == s.now - Before(s).consumed
  {
    FrameRuns(Before(s), s.now);
  }

  lemma FrameKeeps(s: Sim, e: Event)
    requires SimOk(s) && e.Frame? && Possible(s, e)
    ensures SimOk(Happen(s, e))
  {
    FrameCounts(s, e);
    var s', ticks := Happen(s, e), Ticks(Begin(Before(s), s.now));
    Ascending(s.ran, ticks, Before(s).consumed);
    forall tick | tick in s'.ran ensures s'.start < tick <= s.now {
      assert tick in s.ran || tick in ticks;
    }
  }

  ghost predicate Run(s: Sim, events: seq<Event>)
    decreases |events|
  {
    events != [] ==> Possible(s, events[0]) && Run(Happen(s, events[0]), events[1..])
  }

  function After(s: Sim, events: seq<Event>): Sim
    decreases |events|
  {
    if events == [] then s else After(Happen(s, events[0]), events[1..])
  }

  lemma {:induction false} RunKeeps(s: Sim, events: seq<Event>)
    requires SimOk(s) && Run(s, events)
    ensures SimOk(After(s, events))
    decreases |events|
  {
    if events != [] {
      if events[0].Frame? {
        FrameKeeps(s, events[0]);
      }
      RunKeeps(Happen(s, events[0]), events[1..]);
    }
  }

  /** Frame accounting over any run: ticks run and ticks dropped add up to the tick index since the first
      frame, ticks are run once and in order, and a clock that the newest published frame shows as paused
      still stands at the tick that frame shows. */
  lemma FramesAddUp(now: int, paused: bool, maxSteps: nat, events: seq<Event>)
    requires Run(Sim(now, paused, maxSteps, None, 0, [], []), events)
    ensures var s := After(Sim(now, paused, maxSteps, None, 0, [], []), events);
      && (s.stepper.Some? ==> |s.ran| + s.stepper.value.dropped == s.stepper.value.consumed - s.start)
      && Increasing(s.ran)
      && (s.paused && s.shown != [] && s.shown[|s.shown| - 1].paused ==> s.shown[|s.shown| - 1].tick == s.now)
  {
    RunKeeps(Sim(now, paused, maxSteps, None, 0, [], []), events);
  }

  /** No frame of the run resumes the clock. */
  ghost predicate NeverResumed(events: seq<Event>) {
    forall e <- events :: e.Frame? ==> e.paused
  }

  /** After a frame that was shown as paused no tick is run until a task resumes the clock, and every frame
      shown in between shows the same tick. */
  lemma {:induction false} FrozenUntilResumed(s: Sim, events: seq<Event>)
    requires SimOk(s) && Run(s, events) && NeverResumed(events)
    requires s.paused && s.shown != [] && s.shown[|s.shown| - 1].paused
    ensures var t := After(s, events);
      && t.ran == s.ran && t.now == s.now && s.shown <= t.shown
      && forall i :: |s.shown| <= i < |t.shown| ==> t.shown[i] == Shown(s.now, true, s.stepper.value.dropped)
    decreases |events|
  {
    if events != [] {
      var e := events[0];
      var s1 := Happen(s, e);
      if e.Frame? {
        FrameKeeps(s, e);
        assert events[0] in events;
        FrameCounts(s, e);
      }
      FrozenUntilResumed(s1, events[1..]);
    }
  }
}
