/** One frame of the simulation thread: posted tasks, one sample of the clock, the ticks due, one published
    frame. The scene and the keyboard are whatever the game makes them. */
module Simulation {
  import opened Options
  import opened Timelines
  import opened Steppers
  import Frames

  datatype Task<!S> = PauseTask | UnpauseTask | ToggleTask | SpeedTask(multiplier: Multiplier) | GameTask(change: S -> S)

  /** A call of onTick: the tick, the keyboard, and the keyboard the tick before it saw. */
  datatype Tick<K> = Tick(index: int, keyboard: K, previous: K)

  datatype Status = Status(tick: int, paused: bool, dropped: int, frame: nat, steps: nat)
  datatype RenderFrame<S> = RenderFrame(scene: S, status: Status)

  // ---- what a frame does ----------------------------------------------------------------------------

  function PausedAfter<S>(paused: bool, tasks: seq<Task<S>>): bool {
    if tasks == [] then paused else
    var before := PausedAfter(paused, tasks[..|tasks| - 1]);
    match tasks[|tasks| - 1]
    case PauseTask => true
    case UnpauseTask => false
    case ToggleTask => !before
    case _ => before
  }

  function SceneAfter<S>(scene: S, tasks: seq<Task<S>>): S {
    if tasks == [] then scene else
    var before := SceneAfter(scene, tasks[..|tasks| - 1]);
    match tasks[|tasks| - 1]
    case GameTask(change) => change(before)
    case _ => before
  }

  /** The speed last asked for that a timeline accepts. */
  function SpeedAsked<S>(tasks: seq<Task<S>>): Option<real> {
    if tasks == [] then None else
    match tasks[|tasks| - 1]
    case SpeedTask(m) => if InRange(m) then Some(m.value) else SpeedAsked(tasks[..|tasks| - 1])
    case _ => SpeedAsked(tasks[..|tasks| - 1])
  }

  /** What one task does. */
  lemma OneTask<S>(scene: S, paused: bool, t: Task<S>)
    ensures SceneAfter(scene, [t]) == match t case GameTask(change) => change(scene) case _ => scene
    ensures PausedAfter(paused, [t]) == match t
      case PauseTask => true case UnpauseTask => false case ToggleTask => !paused case _ => paused
    ensures SpeedAsked([t]) == if t.SpeedTask? && InRange(t.multiplier) then Some(t.multiplier.value) else None
  {
    assert [t][..0] == [];
  }

  /** And a batch is its tasks one after the other. */
  lemma {:induction false} BatchesAdd<S>(scene: S, paused: bool, a: seq<Task<S>>, b: seq<Task<S>>)
    ensures SceneAfter(scene, a + b) == SceneAfter(SceneAfter(scene, a), b)
    ensures PausedAfter(paused, a + b) == PausedAfter(PausedAfter(paused, a), b)
    ensures SpeedAsked(a + b) == if SpeedAsked(b).Some? then SpeedAsked(b) else SpeedAsked(a)
    decreases |b|
  {
    if b == [] {
      assert a + b == a;
    } else {
      assert (a + b)[..|a + b| - 1] == a + b[..|b| - 1];
      BatchesAdd(scene, paused, a, b[..|b| - 1]);
    }
  }

  /** The calls of one frame: the first sees what the last tick of an earlier frame saw as previous, the others
      this frame's own keyboard. */
  function Calls<K>(ticks: seq<int>, keyboard: K, previous: K): (calls: seq<Tick<K>>)
    ensures |calls| == |ticks|
  {
    seq(|ticks|, i requires 0 <= i < |ticks| => Tick(ticks[i], keyboard, if i == 0 then previous else keyboard))
  }

  function Played<S, K>(scene: S, calls: seq<Tick<K>>, onTick: (S, Tick<K>) -> S): S {
    if calls == [] then scene else onTick(Played(scene, calls[..|calls| - 1], onTick), calls[|calls| - 1])
  }

  lemma OneMoreCall<K>(done: seq<int>, tick: int, keyboard: K, previous: K)
    ensures Calls(done + [tick], keyboard, previous)
         == Calls(done, keyboard, previous) + [Tick(tick, keyboard, if done == [] then previous else keyboard)]
  {
  }

  lemma OneMorePlayed<S, K>(scene: S, calls: seq<Tick<K>>, call: Tick<K>, onTick: (S, Tick<K>) -> S)
    ensures Played(scene, calls + [call], onTick) == onTick(Played(scene, calls, onTick), call)
  {
    assert (calls + [call])[..|calls|] == calls;
  }

  /** The game's callback is called once for each call, in order. */
  lemma {:induction false} PlayedInOrder<S, K>(scene: S, call: Tick<K>, rest: seq<Tick<K>>, onTick: (S, Tick<K>) -> S)
    ensures Played(scene, [call] + rest, onTick) == Played(onTick(scene, call), rest, onTick)
    decreases |rest|
  {
    if rest == [] {
      assert [call] + rest == [call] && [call][..0] == [];
      assert Played(scene, [], onTick) == scene;
    } else {
      assert ([call] + rest)[..|rest|] == [call] + rest[..|rest| - 1];
      PlayedInOrder(scene, call, rest[..|rest| - 1], onTick);
    }
  }

  /** Every tick comes after the one before it and is told the keyboard that one saw. */
  ghost predicate Chained<K(!new)>(calls: seq<Tick<K>>) {
    && (forall i, j :: 0 <= i < j < |calls| ==> calls[i].index < calls[j].index)
    && (forall i :: 0 < i < |calls| ==> calls[i].previous == calls[i - 1].keyboard)
  }

  /** The calls of a frame that sampled now: the newest ticks, ending there. */
  ghost predicate NewestCalls<K(!new)>(calls: seq<Tick<K>>, now: int, keyboard: K, previous: K) {
    forall i :: 0 <= i < |calls| ==>
      calls[i] == Tick(now - |calls| + 1 + i, keyboard, if i == 0 then previous else keyboard)
  }

  lemma FrameCalls<K(!new)>(s: StepperState, now: int, keyboard: K, previous: K)
    requires s.consumed <= now
    ensures var calls, s' := Calls(Ticks(Begin(s, now)), keyboard, previous), Finished(Begin(s, now));
      && NewestCalls(calls, now, keyboard, previous) && |calls| == Min(now - s.consumed, s.maxSteps)
      && s'.consumed == now && s'.dropped == s.dropped + (now - s.consumed - |calls|)
  {
    FrameRuns(s, now);
  }

  function Indices<K>(calls: seq<Tick<K>>): (r: seq<int>)
    ensures |r| == |calls|
  {
    seq(|calls|, i requires 0 <= i < |calls| => calls[i].index)
  }

  lemma IndicesAdd<K>(a: seq<Tick<K>>, b: seq<Tick<K>>)
    ensures Indices(a + b) == Indices(a) + Indices(b)
  {
  }

  lemma FrameIndices<K(!new)>(s: StepperState, now: int, calls: seq<Tick<K>>, keyboard: K, previous: K)
    requires s.consumed <= now && |calls| == Min(now - s.consumed, s.maxSteps) && NewestCalls(calls, now, keyboard, previous)
    ensures Indices(calls) == Ticks(Begin(s, now))
  {
    FrameRuns(s, now);
  }

  /** The books of a simulation: the calls so far are chained, the last one left this keyboard, and ticks run
      and ticks dropped account for all game time since the start. */
  ghost predicate Books<K(!new)>(played: seq<Tick<K>>, keyboard: K, consumed: int, dropped: int, start: int) {
    && Chained(played) && |played| + dropped == consumed - start
    && (played != [] ==> played[|played| - 1].keyboard == keyboard && played[|played| - 1].index <= consumed)
  }

  lemma BooksBalance<K(!new)>(played: seq<Tick<K>>, previous: K, consumed: int, dropped: int, start: int, calls: seq<Tick<K>>, now: int, keyboard: K)
    requires Books(played, previous, consumed, dropped, start) && NewestCalls(calls, now, keyboard, previous)
    requires consumed <= now - |calls|
    ensures Books(played + calls, if calls == [] then previous else keyboard, now, dropped + (now - consumed - |calls|), start)
  {
    var all := played + calls;
    forall i, j | 0 <= i < j < |all| ensures all[i].index < all[j].index {
      if i < |played| <= j {
        assert played[i].index <= played[|played| - 1].index;
      }
    }
  }

  class SimulationThread<!S, K(!new)> {
    const gameTime: Timeline
    const maxSteps: nat
    const onTick: (S, Tick<K>) -> S
    var scene: S
    var stepper: Stepper?               // absent until a frame has begun: earlier time is never run
    var tasks: seq<Task<S>>
    var keyboardSlot: Option<K>
    var frameKeyboard: K
    var lastTickKeyboard: K
    var framesPublished: nat
    var frameSlot: Option<RenderFrame<S>>
    ghost var played: seq<Tick<K>>      // every call of onTick so far
    ghost var start: int                // the tick the first frame found
    ghost var shown: seq<Frames.Shown>  // what every published frame showed

    ghost predicate Accounted()
      reads this, stepper
    {
      && (stepper == null ==> played == [])
      && (stepper != null ==>
            && stepper.timeline == gameTime && stepper.maxSteps == maxSteps
            && Books(played, lastTickKeyboard, stepper.consumed, stepper.dropped, start))
    }

    /** The simulation as Frames sees it, at the time its clock shows. */
    ghost function SimView(now: int): Frames.Sim
      reads this, stepper, gameTime
    {
      Frames.Sim(now, gameTime.paused, maxSteps, if stepper == null then None else Some(stepper.State()), start, Indices(played), shown)
    }

    constructor (scene: S, gameTime: Timeline, onTick: (S, Tick<K>) -> S, maxSteps: nat, noKeys: K)
      ensures Accounted() && stepper == null && tasks == [] && this.gameTime == gameTime && this.maxSteps == maxSteps
      ensures this.scene == scene && frameSlot == None
    {
      this.scene, this.gameTime, this.onTick, this.maxSteps := scene, gameTime, onTick, maxSteps;
      stepper, tasks, keyboardSlot, frameKeyboard, lastTickKeyboard := null, [], None, noKeys, noKeys;
      framesPublished, frameSlot, played, start, shown := 0, None, [], 0, [];
    }

    method SubmitKeyboard(keyboard: K)
      modifies `keyboardSlot
      ensures keyboardSlot == Some(keyboard)
    {
      keyboardSlot := Some(keyboard);
    }

    method Post(task: Task<S>)
      modifies `tasks
      ensures tasks == old(tasks) + [task]
    {
      tasks := tasks + [task];
    }

    method TakeRenderFrame() returns (taken: Option<RenderFrame<S>>)
      modifies `frameSlot
      ensures taken == old(frameSlot) && frameSlot == None
    {
      taken := frameSlot;
      frameSlot := None;
    }

    /** The clock runs at this speed, rounded to a millionth. */
    ghost predicate SpeedIs(speed: real)
      reads gameTime
    {
      gameTime.speedNum * SPEED_SCALE == Rounded(speed * SPEED_SCALE as real) * gameTime.speedDen
    }

    /** Tasks may pause, resume and re-rate the clock; none of it moves the time it shows. */
    method RunTasks(todo: seq<Task<S>>, ghost all: set<Timeline>)
      requires Forest(all) && gameTime in all
      modifies `scene, gameTime
      ensures Forest(all) && gameTime.Now() == old(gameTime.Now())
      ensures gameTime.paused == PausedAfter(old(gameTime.paused), todo) && scene == SceneAfter(old(scene), todo)
      ensures gameTime.ticksPerSecond == old(gameTime.ticksPerSecond)
      ensures match SpeedAsked(todo)
        case None => gameTime.speedNum == old(gameTime.speedNum) && gameTime.speedDen == old(gameTime.speedDen)
        case Some(speed) => SpeedIs(speed)
    {
      var i := 0;
      while i < |todo|
        invariant 0 <= i <= |todo| && Forest(all) && gameTime.Now() == old(gameTime.Now())
        invariant gameTime.paused == PausedAfter(old(gameTime.paused), todo[..i]) && scene == SceneAfter(old(scene), todo[..i])
        invariant gameTime.ticksPerSecond == old(gameTime.ticksPerSecond)
        invariant match SpeedAsked(todo[..i])
          case None => gameTime.speedNum == old(gameTime.speedNum) && gameTime.speedDen == old(gameTime.speedDen)
          case Some(speed) => SpeedIs(speed)
      {
        assert todo[..i + 1][..i] == todo[..i];
        RunTask(todo[i], all);
        i := i + 1;
      }
      assert todo[..i] == todo;
    }

    method RunTask(task: Task<S>, ghost all: set<Timeline>)
      requires Forest(all) && gameTime in all
      modifies `scene, gameTime
      ensures Forest(all) && gameTime.Now() == old(gameTime.Now())
      ensures gameTime.paused == match task
        case PauseTask => true case UnpauseTask => false case ToggleTask => !old(gameTime.paused) case _ => old(gameTime.paused)
      ensures scene == match task case GameTask(change) => change(old(scene)) case _ => old(scene)
      ensures gameTime.ticksPerSecond == old(gameTime.ticksPerSecond)
      ensures match SpeedAsked([task])
        case None => gameTime.speedNum == old(gameTime.speedNum) && gameTime.speedDen == old(gameTime.speedDen)
        case Some(speed) => SpeedIs(speed)
    {
      OneTask(scene, gameTime.paused, task);
      match task
      case PauseTask => gameTime.Pause(all);
      case UnpauseTask => gameTime.Unpause(all);
      case ToggleTask =>
        if gameTime.paused {
          gameTime.Unpause(all);
        } else {
          gameTime.Pause(all);
        }
      case SpeedTask(multiplier) => gameTime.SetSpeedMultiplier(multiplier, all);
      case GameTask(change) => scene := change(scene);
    }

    method RunOne()
      requires stepper != null
      modifies `scene, `lastTickKeyboard, `played
      ensures played == old(played) + [Tick(stepper.consumed, frameKeyboard, old(lastTickKeyboard))]
      ensures scene == onTick(old(scene), played[|played| - 1]) && lastTickKeyboard == frameKeyboard
    {
      var call := Tick(stepper.consumed, frameKeyboard, lastTickKeyboard);
      scene := onTick(scene, call);
      lastTickKeyboard := frameKeyboard;
      played := played + [call];
    }

    /** The step loop. */
    method RunTicks() returns (steps: nat, ghost calls: seq<Tick<K>>)
      requires stepper != null
      modifies `scene, `lastTickKeyboard, `played, stepper
      ensures stepper.State() == Finished(old(stepper.State())) && steps == |calls|
      ensures calls == Calls(Ticks(old(stepper.State())), frameKeyboard, old(lastTickKeyboard))
      ensures played == old(played) + calls && scene == Played(old(scene), calls, onTick)
      ensures lastTickKeyboard == if steps == 0 then old(lastTickKeyboard) else frameKeyboard
    {
      steps := 0;
      calls := [];
      ghost var begun, done := stepper.State(), [];
      var more := true;
      while more
        invariant Underway(begun, stepper.State(), done) && (!more ==> !CanStep(stepper.State()))
        invariant steps == |done| && calls == Calls(done, frameKeyboard, old(lastTickKeyboard))
        invariant played == old(played) + calls && scene == Played(old(scene), calls, onTick)
        invariant lastTickKeyboard == if steps == 0 then old(lastTickKeyboard) else frameKeyboard
        decreases stepper.budget, more
      {
        UnderwayStep(begun, stepper.State(), done);
        more := stepper.Step();
        if more {
          OneMoreCall(done, stepper.consumed, frameKeyboard, old(lastTickKeyboard));
          OneMorePlayed(old(scene), calls, Tick(stepper.consumed, frameKeyboard, lastTickKeyboard), onTick);
          RunOne();
          steps := steps + 1;
          done := done + [stepper.consumed];
          calls := calls + [played[|played| - 1]];
        }
      }
      UnderwayStep(begun, stepper.State(), done);
    }

    /** The clock is read once, and the ticks due are run. */
    method SampleAndRun(ghost all: set<Timeline>) returns (steps: nat, ghost calls: seq<Tick<K>>)
      requires Accounted() && stepper != null && Forest(all) && gameTime in all && stepper.consumed <= gameTime.Now()
      modifies `scene, `lastTickKeyboard, `played, stepper
      ensures Accounted() && Forest(all) && gameTime.Now() == old(gameTime.Now())
      ensures var now, was := gameTime.Now(), old(stepper.consumed);
        && steps == |calls| == Min(now - was, maxSteps)
        && NewestCalls(calls, now, frameKeyboard, old(lastTickKeyboard))
        && stepper.consumed == now && stepper.dropped == old(stepper.dropped) + (now - was - steps)
      ensures var begun := Begin(old(stepper.State()), gameTime.Now());
        stepper.State() == Finished(begun) && calls == Calls(Ticks(begun), frameKeyboard, old(lastTickKeyboard))
      ensures played == old(played) + calls && scene == Played(old(scene), calls, onTick)
      ensures unchanged(`stepper) && start == old(start)
    {
      ghost var s, now := stepper.State(), gameTime.Now();
      stepper.BeginFrame();
      FrameCalls(s, now, frameKeyboard, lastTickKeyboard);
      steps, calls := RunTicks();
      BooksBalance(old(played), old(lastTickKeyboard), s.consumed, s.dropped, start, calls, now, frameKeyboard);
      Untouched(all);
    }

    method MakeStepper(ghost all: set<Timeline>)
      requires Accounted() && Forest(all) && gameTime in all && stepper == null
      modifies `stepper, `start
      ensures Accounted() && Forest(all) && gameTime.Now() == old(gameTime.Now())
      ensures stepper != null && fresh(stepper) && stepper.State() == NewStepper(gameTime.Now(), maxSteps) && start == gameTime.Now()
    {
      stepper := new Stepper(gameTime, maxSteps);
      start := stepper.consumed;
      Untouched(all);
    }

    /** Everything before the clock is read: the posted tasks, and the newest keyboard. */
    method Prepare(ghost all: set<Timeline>)
      requires Forest(all) && gameTime in all
      modifies `tasks, `scene, `keyboardSlot, `frameKeyboard, gameTime
      ensures Forest(all) && gameTime.Now() == old(gameTime.Now())
      ensures tasks == [] && keyboardSlot == None && scene == SceneAfter(old(scene), old(tasks))
      ensures frameKeyboard == match old(keyboardSlot) case Some(k) => k case None => old(frameKeyboard)
      ensures gameTime.paused == PausedAfter(old(gameTime.paused), old(tasks))
    {
      var todo := tasks;
      tasks := [];
      Untouched(all);
      RunTasks(todo, all);
      label Ran:
      if keyboardSlot.Some? {
        frameKeyboard := keyboardSlot.value;
        keyboardSlot := None;
      }
      Untouched@Ran(all);
    }

    /** One frame: the newest ticks up to the time it sampled run, what exceeds the cap is dropped, and a
        published frame carries exactly that time and whether the clock stands still there. */
    method RunStarted(first: bool, ghost all: set<Timeline>) returns (steps: nat, ghost calls: seq<Tick<K>>)
      requires Accounted() && Forest(all) && gameTime in all && stepper != null && stepper.consumed <= gameTime.Now()
      modifies this, stepper, gameTime
      ensures Accounted() && Forest(all) && gameTime.Now() == old(gameTime.Now())
      ensures stepper == old(stepper) && start == old(start)
      ensures var now, was := gameTime.Now(), old(stepper.consumed);
        && steps == |calls| == Min(now - was, maxSteps)
        && NewestCalls(calls, now, frameKeyboard, old(lastTickKeyboard))
        && stepper.consumed == now && stepper.dropped == old(stepper.dropped) + (now - was - steps)
      ensures stepper.State() == Finished(Begin(old(stepper.State()), gameTime.Now()))
      ensures played == old(played) + calls && scene == Played(SceneAfter(old(scene), old(tasks)), calls, onTick)
      ensures tasks == [] && keyboardSlot == None
      ensures frameKeyboard == match old(keyboardSlot) case Some(k) => k case None => old(frameKeyboard)
      ensures gameTime.paused == PausedAfter(old(gameTime.paused), old(tasks))
      ensures if steps > 0 || old(tasks) != [] || first
        then && framesPublished == old(framesPublished) + 1
             && frameSlot == Some(RenderFrame(scene, Status(gameTime.Now(), gameTime.paused, stepper.dropped, framesPublished, steps)))
             && shown == old(shown) + [Frames.Shown(gameTime.Now(), gameTime.paused, stepper.dropped)]
        else framesPublished == old(framesPublished) && frameSlot == old(frameSlot) && shown == old(shown)
    {
      var worthShowing := first || tasks != [];
      Prepare(all);
      steps, calls := SampleAndRun(all);
      PublishFrame(steps > 0 || worthShowing, steps, all);
    }

    /** runFrame: the stepper is made at the first frame, which is always published. */
    method RunFrame(ghost all: set<Timeline>) returns (steps: nat, ghost calls: seq<Tick<K>>)
      requires Accounted() && Forest(all) && gameTime in all
      requires stepper != null ==> stepper.consumed <= gameTime.Now()
      modifies this, stepper, gameTime
      ensures Accounted() && Forest(all) && gameTime.Now() == old(gameTime.Now())
      ensures stepper != null && stepper.consumed == gameTime.Now()
      ensures var was := if old(stepper) == null then gameTime.Now() else old(stepper.consumed);
        steps == |calls| == Min(gameTime.Now() - was, maxSteps) && NewestCalls(calls, gameTime.Now(), frameKeyboard, old(lastTickKeyboard))
      ensures var was := if old(stepper) == null then NewStepper(gameTime.Now(), maxSteps) else old(stepper.State());
        stepper.State() == Finished(Begin(was, gameTime.Now()))
      ensures played == old(played) + calls && scene == Played(SceneAfter(old(scene), old(tasks)), calls, onTick)
      ensures gameTime.paused == PausedAfter(old(gameTime.paused), old(tasks))
      ensures steps > 0 || old(tasks) != [] || old(stepper) == null ==>
        frameSlot == Some(RenderFrame(scene, Status(gameTime.Now(), gameTime.paused, stepper.dropped, framesPublished, steps)))
      ensures !(steps > 0 || old(tasks) != [] || old(stepper) == null) ==> frameSlot == old(frameSlot)
      ensures framesPublished == old(framesPublished) + if steps > 0 || old(tasks) != [] || old(stepper) == null then 1 else 0
      ensures SimView(gameTime.Now()) == Frames.Happen(old(SimView(gameTime.Now())), Frames.Frame(gameTime.paused, old(tasks) != []))
    {
      ghost var before := SimView(gameTime.Now());
      var first := stepper == null;
      if first {
        MakeStepper(all);
      }
      steps, calls := RunStarted(first, all);
      IndicesAdd(old(played), calls);
      FrameIndices(Frames.Before(before), before.now, calls, frameKeyboard, old(lastTickKeyboard));
    }

    method PublishFrame(worthShowing: bool, steps: nat, ghost all: set<Timeline>)
      requires stepper != null && Forest(all) && gameTime in all
      modifies `framesPublished, `frameSlot, `shown
      ensures Forest(all) && gameTime.Now() == old(gameTime.Now())
      ensures if worthShowing
        then && framesPublished == old(framesPublished) + 1
             && frameSlot == Some(RenderFrame(scene, Status(stepper.consumed, gameTime.paused, stepper.dropped, framesPublished, steps)))
             && shown == old(shown) + [Frames.Shown(stepper.consumed, gameTime.paused, stepper.dropped)]
        else framesPublished == old(framesPublished) && frameSlot == old(frameSlot) && shown == old(shown)
    {
      if worthShowing {
        shown := shown + [Frames.Shown(stepper.consumed, gameTime.paused, stepper.dropped)];
        framesPublished := framesPublished + 1;
        frameSlot := Some(RenderFrame(scene, Status(stepper.consumed, gameTime.paused, stepper.dropped, framesPublished, steps)));
      }
      Untouched(all);
    }
  }

  /** A subsystem, run on the caller's thread. ticks: every tick its callback was called with. */
  class SubsystemRunner {
    const gameTime: Timeline
    const maxSteps: nat
    var stepper: Stepper?
    ghost var ticks: seq<int>

    constructor (gameTime: Timeline, maxSteps: nat)
      ensures stepper == null && ticks == [] && this.gameTime == gameTime && this.maxSteps == maxSteps
    {
      this.gameTime, this.maxSteps := gameTime, maxSteps;
      stepper, ticks := null, [];
    }

    ghost predicate Ready()
      reads this, stepper
    {
      (stepper != null ==> stepper.timeline == gameTime && stepper.maxSteps == maxSteps)
    }

    /** runSubsystemFrame with nobody else about: while game time is paused no callback is made and what was
        due is discarded; otherwise it is a frame like the simulation's. */
    method RunSubsystemFrame() returns (steps: nat)
      requires Ready() && gameTime.Valid() && (stepper != null ==> stepper.consumed <= gameTime.Now())
      modifies this, stepper
      ensures Ready() && stepper != null && stepper.consumed == gameTime.Now()
      ensures gameTime.paused ==> steps == 0 && ticks == old(ticks) && stepper.State() == NewStepper(gameTime.Now(), maxSteps)
      ensures !gameTime.paused ==>
        var begun := Begin(if old(stepper) == null then NewStepper(gameTime.Now(), maxSteps) else old(stepper.State()), gameTime.Now());
        ticks == old(ticks) + Ticks(begun) && steps == |Ticks(begun)| && stepper.State() == Finished(begun)
    {
      steps := 0;
      if stepper == null {
        stepper := new Stepper(gameTime, maxSteps);
      }
      ghost var was := stepper.State();
      stepper.BeginFrame();
      FrameRuns(was, gameTime.Now());
      if gameTime.paused {
        stepper := new Stepper(gameTime, maxSteps);
      } else {
        steps := CallBack();
      }
    }

    /** The callback loop. Alone, nobody pauses game time between two callbacks. */
    method CallBack() returns (steps: nat)
      requires stepper != null && !gameTime.paused
      modifies `ticks, stepper
      ensures ticks == old(ticks) + Ticks(old(stepper.State())) && steps == |Ticks(old(stepper.State()))|
      ensures stepper.State() == Finished(old(stepper.State()))
    {
      steps := 0;
      ghost var begun, done := stepper.State(), [];
      var more := true;
      while more
        invariant Underway(begun, stepper.State(), done) && (!more ==> !CanStep(stepper.State()))
        invariant steps == |done| && ticks == old(ticks) + done
        decreases stepper.budget, more
      {
        UnderwayStep(begun, stepper.State(), done);
        more := stepper.Step();
        if more {
          ticks := ticks + [stepper.consumed];
          done := done + [stepper.consumed];
          steps := steps + 1;
        }
      }
      UnderwayStep(begun, stepper.State(), done);
    }
  }

  /** What happens to other objects leaves timelines alone. */
  twostate lemma Untouched(all: set<Timeline>)
    requires old(Forest(all)) && forall t <- all :: unchanged(t) && unchanged(t.clock)
    ensures Forest(all) && forall t <- all :: t.Now() == old(t.Now())
  {
    forall t | t in all ensures t.Frozen() {
      assert old(t.Valid() && Linked(t, all));
    }
    SameClocks(all);
    forall t | t in all ensures Linked(t, all) {
      assert old(Linked(t, all));
    }
  }

  /** The step loop has run the ticks in done and stands at s. */
  ghost predicate Underway(begun: StepperState, s: StepperState, done: seq<int>) {
    Ticks(begun) == done + Ticks(s) && Finished(begun) == Finished(s)
  }

  lemma UnderwayStep(begun: StepperState, s: StepperState, done: seq<int>)
    requires Underway(begun, s, done)
    ensures if CanStep(s) then Underway(begun, Stepped(s), done + [s.consumed + 1])
            else Ticks(begun) == done && Finished(begun) == s
  {
    if CanStep(s) {
      assert done + ([s.consumed + 1] + Ticks(Stepped(s))) == done + [s.consumed + 1] + Ticks(Stepped(s));
    }
  }
}
