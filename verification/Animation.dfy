/** Sprite animations: time carried over frame boundaries, with real arithmetic for time. */
module Animations {
  import opened Rational

  datatype Frame = Frame(index: nat, duration: real)

  datatype SpriteAnimation = SpriteAnimation(sheet: nat, frames: seq<Frame>, loop: bool, currentFrame: nat, elapsed: real)

  function Uniform(sheet: nat, indices: seq<nat>, duration: real, loop: bool): (a: SpriteAnimation)
    ensures a.sheet == sheet && a.loop == loop && a.currentFrame == 0 && a.elapsed == 0.0
    ensures |a.frames| == |indices|
    ensures forall i :: 0 <= i < |indices| ==> a.frames[i].index == indices[i] && a.frames[i].duration == duration
  {
    SpriteAnimation(sheet, seq(|indices|, i requires 0 <= i < |indices| => Frame(indices[i], duration)), loop, 0, 0.0)
  }

  /** The current frame is one of the frames. */
  predicate Playable(a: SpriteAnimation) { a.currentFrame < |a.frames| }

  predicate Due(a: SpriteAnimation)
    requires Playable(a)
  {
    a.elapsed >= a.frames[a.currentFrame].duration
  }

  predicate Over(a: SpriteAnimation) { !a.loop && a.currentFrame + 1 >= |a.frames| }

  function FrameAfter(n: nat, i: nat): (r: nat)
    requires i < n
    ensures r < n
  {
    if i + 1 < n then i + 1 else 0
  }

  /** One turn of the loop that goes on to another frame. */
  function Turn(a: SpriteAnimation): (r: SpriteAnimation)
    requires Playable(a)
    ensures Playable(r)
  {
    a.(elapsed := a.elapsed - a.frames[a.currentFrame].duration, currentFrame := FrameAfter(|a.frames|, a.currentFrame))
  }

  // ---- how long frames take -------------------------------------------------------------------------

  /** When frame n starts, counted from the start of the first frame. */
  function StartOf(frames: seq<Frame>, n: nat): real
    requires n <= |frames|
  {
    if n == 0 then 0.0 else StartOf(frames, n - 1) + frames[n - 1].duration
  }

  /** How long one round takes. */
  function Cycle(frames: seq<Frame>): real { StartOf(frames, |frames|) }

  /** How long k frames take from frame i on, round and round. */
  function Span(frames: seq<Frame>, i: nat, k: nat): real
    requires i < |frames|
    decreases k
  {
    if k == 0 then 0.0 else frames[i].duration + Span(frames, FrameAfter(|frames|, i), k - 1)
  }

  lemma {:induction false} SpanUpTo(frames: seq<Frame>, i: nat, n: nat, k: nat)
    requires i + n < |frames|
    ensures Span(frames, i, n + k) == StartOf(frames, i + n) - StartOf(frames, i) + Span(frames, i + n, k)
    decreases n
  {
    if n > 0 {
      SpanUpTo(frames, i + 1, n - 1, k);
    }
  }

  /** A round more takes a cycle more, wherever it starts. */
  lemma SpanRound(frames: seq<Frame>, i: nat, k: nat)
    requires i < |frames|
    ensures Span(frames, i, |frames| + k) == Cycle(frames) + Span(frames, i, k)
  {
    SpanUpTo(frames, i, |frames| - 1 - i, 1 + i + k);
    SpanUpTo(frames, 0, i, k);
  }

  // ---- when the carry loop ends ---------------------------------------------------------------------

  ghost predicate StopsWithin(a: SpriteAnimation, turns: nat)
    requires Playable(a)
    decreases turns
  {
    !Due(a) || Over(a) || (turns > 0 && StopsWithin(Turn(a), turns - 1))
  }

  ghost predicate EverStops(a: SpriteAnimation)
    requires Playable(a)
  {
    exists turns: nat :: StopsWithin(a, turns)
  }

  /** The frame that is k frames on takes longer than the time left when it comes up. */
  ghost predicate Outlasts(a: SpriteAnimation, k: nat)
    requires Playable(a)
  {
    a.elapsed < Span(a.frames, a.currentFrame, k + 1)
  }

  lemma {:induction false} StopsAtFrame(a: SpriteAnimation, k: nat)
    requires Playable(a) && a.loop && Outlasts(a, k)
    ensures StopsWithin(a, k)
    decreases k
  {
    if k == 0 {
      assert Span(a.frames, a.currentFrame, 1) == a.frames[a.currentFrame].duration;
    } else if Due(a) {
      assert Outlasts(Turn(a), k - 1);
      StopsAtFrame(Turn(a), k - 1);
    }
  }

  lemma {:induction false} FrameOfStop(a: SpriteAnimation, turns: nat) returns (k: nat)
    requires Playable(a) && a.loop && StopsWithin(a, turns)
    ensures Outlasts(a, k)
    decreases turns
  {
    k := 0;
    if Due(a) {
      k := FrameOfStop(Turn(a), turns - 1);
      k := k + 1;
    }
  }

  /** When rounds give no time away, what does not end in the first round does not end later. */
  lemma {:induction false} InFirstRound(a: SpriteAnimation, k: nat) returns (j: nat)
    requires Playable(a) && Cycle(a.frames) <= 0.0 && Outlasts(a, k)
    ensures j < |a.frames| && Outlasts(a, j)
    decreases k
  {
    if k < |a.frames| {
      j := k;
    } else {
      SpanRound(a.frames, a.currentFrame, k + 1 - |a.frames|);
      j := InFirstRound(a, k - |a.frames|);
    }
  }

  /** So many whole cycles. */
  function Laps(n: nat, cycle: real): real {
    if n == 0 then 0.0 else Laps(n - 1, cycle) + cycle
  }

  lemma {:induction false} LapsMultiply(n: nat, cycle: real)
    ensures Laps(n, cycle) == n as real * cycle
  {
    if n > 0 {
      LapsMultiply(n - 1, cycle);
    }
  }

  lemma {:induction false} AfterRounds(frames: seq<Frame>, i: nat, time: real, rounds: nat) returns (k: nat)
    requires i < |frames| && time < Laps(rounds, Cycle(frames)) + Span(frames, i, 1)
    ensures time < Span(frames, i, k + 1)
    decreases rounds
  {
    k := 0;
    if rounds > 0 {
      k := AfterRounds(frames, i, time - Cycle(frames), rounds - 1);
      SpanRound(frames, i, k + 1);
      k := |frames| + k;
    }
  }

  /** Rounds that take time use any amount up. */
  lemma EnoughRounds(time: real, cycle: real) returns (n: nat)
    requires cycle > 0.0
    ensures time < Laps(n, cycle)
  {
    if time < 0.0 {
      n := 0;
    } else {
      NonNegative(time, cycle);
      n := (time / cycle).Floor + 1;
      LapsMultiply(n, cycle);
      QuotientBelow(time, n as real, cycle);
    }
  }

  lemma QuotientBelow(x: real, y: real, d: real)
    requires d > 0.0 && x / d < y
    ensures x < y * d
  {
    ProductQuotient(y, d);
    if x >= y * d {
      NonNegative(x - y * d, d);
      QuotientSum(x - y * d, y * d, d);
    }
  }

  lemma NonNegative(x: real, d: real)
    requires x >= 0.0 && d > 0.0
    ensures x / d >= 0.0
  {
  }

  lemma QuotientSum(a: real, b: real, d: real)
    requires d > 0.0
    ensures (a + b) / d == a / d + b / d
  {
  }

  lemma ProductQuotient(x: real, d: real)
    requires d > 0.0
    ensures x * d / d == x
  {
  }

  lemma {:induction false} OnceStops(a: SpriteAnimation)
    requires Playable(a) && !a.loop
    ensures StopsWithin(a, |a.frames| - a.currentFrame)
    decreases |a.frames| - a.currentFrame
  {
    if Due(a) && !Over(a) {
      OnceStops(Turn(a));
    }
  }

  /** The carry loop comes to an end exactly when the animation does not loop, or a round takes time, or some
      frame of the first round takes longer than the time left when it comes up. Durations, the time carried
      and the delta may have any sign. */
  lemma EndsExactlyWhen(a: SpriteAnimation)
    requires Playable(a)
    ensures EverStops(a) <==> !a.loop || Cycle(a.frames) > 0.0 || exists k: nat :: k < |a.frames| && Outlasts(a, k)
  {
    if !a.loop {
      OnceStops(a);
    } else if Cycle(a.frames) > 0.0 {
      var rounds := EnoughRounds(a.elapsed - Span(a.frames, a.currentFrame, 1), Cycle(a.frames));
      var k := AfterRounds(a.frames, a.currentFrame, a.elapsed, rounds);
      StopsAtFrame(a, k);
    } else {
      if k: nat :| k < |a.frames| && Outlasts(a, k) {
        StopsAtFrame(a, k);
      }
      if turns: nat :| StopsWithin(a, turns) {
        var k := FrameOfStop(a, turns);
        var j := InFirstRound(a, k);
      }
    }
  }

  lemma {:induction false} LaterStarts(frames: seq<Frame>, p: nat, n: nat)
    requires p < n <= |frames| && forall f <- frames :: f.duration >= 0.0
    ensures 0.0 <= StartOf(frames, p) && frames[p].duration <= StartOf(frames, n)
    decreases n
  {
    assert frames[n - 1] in frames && frames[p] in frames;
    if p < n - 1 {
      LaterStarts(frames, p, n - 1);
    } else if p > 0 {
      LaterStarts(frames, p - 1, p);
      assert frames[p - 1] in frames;
    }
  }

  lemma {:induction false} TimelessSpan(frames: seq<Frame>, i: nat, k: nat)
    requires i < |frames| && forall f <- frames :: f.duration == 0.0
    ensures Span(frames, i, k) == 0.0
    decreases k
  {
    assert frames[i] in frames;
    if k > 0 {
      TimelessSpan(frames, FrameAfter(|frames|, i), k - 1);
    }
  }

  lemma {:induction false} TimelessStart(frames: seq<Frame>, n: nat)
    requires n <= |frames| && forall f <- frames :: f.duration == 0.0
    ensures StartOf(frames, n) == 0.0
  {
    if n > 0 {
      assert frames[n - 1] in frames;
      TimelessStart(frames, n - 1);
    }
  }

  /** With ordinary frames and time: exactly when the animation does not loop or some frame takes time. */
  lemma OrdinaryEnds(a: SpriteAnimation)
    requires Playable(a) && a.elapsed >= 0.0 && forall f <- a.frames :: f.duration >= 0.0
    ensures EverStops(a) <==> !a.loop || exists f <- a.frames :: f.duration > 0.0
  {
    EndsExactlyWhen(a);
    if f :| f in a.frames && f.duration > 0.0 {
      var p :| 0 <= p < |a.frames| && a.frames[p] == f;
      LaterStarts(a.frames, p, |a.frames|);
    } else {
      TimelessStart(a.frames, |a.frames|);
      forall k: nat ensures !Outlasts(a, k) {
        TimelessSpan(a.frames, a.currentFrame, k + 1);
      }
    }
  }

  /** A sheet of two frames that take no time, looping: the very first advance never returns, not even by 0. */
  lemma TimelessLoopNeverEnds()
    ensures var a := Uniform(1, [0, 1], 0.0, true); Playable(a) && Due(a) && !EverStops(a)
  {
    var a := Uniform(1, [0, 1], 0.0, true);
    assert forall f <- a.frames :: f.duration == 0.0;
    OrdinaryEnds(a);
  }

  // ---- the carry loop -------------------------------------------------------------------------------

  lemma {:induction false} LongerStops(a: SpriteAnimation, turns: nat, more: nat)
    requires Playable(a) && StopsWithin(a, turns) && turns <= more
    ensures StopsWithin(a, more)
    decreases turns
  {
    if Due(a) && !Over(a) {
      LongerStops(Turn(a), turns - 1, more - 1);
    }
  }

  ghost function Least(a: SpriteAnimation, turns: nat): (least: nat)
    requires Playable(a) && StopsWithin(a, turns)
    ensures StopsWithin(a, least) && (least == 0 || !StopsWithin(a, least - 1))
  {
    if turns == 0 || !StopsWithin(a, turns - 1) then turns else Least(a, turns - 1)
  }

  /** How many turns the loop takes. */
  ghost function Turns(a: SpriteAnimation): (turns: nat)
    requires Playable(a) && EverStops(a)
    ensures StopsWithin(a, turns) && (turns == 0 || !StopsWithin(a, turns - 1))
  {
    var turns: nat :| StopsWithin(a, turns);
    Least(a, turns)
  }

  lemma TurnStops(a: SpriteAnimation)
    requires Playable(a) && EverStops(a) && Due(a) && !Over(a)
    ensures EverStops(Turn(a)) && Turns(Turn(a)) < Turns(a)
  {
    assert StopsWithin(Turn(a), Turns(a) - 1);
    if Turns(Turn(a)) >= Turns(a) {
      LongerStops(Turn(a), Turns(a) - 1, Turns(Turn(a)) - 1);
    }
  }

  /** What the loop makes of an animation whose elapsed time has just changed. */
  function Carried(a: SpriteAnimation): (r: SpriteAnimation)
    requires Playable(a) && EverStops(a)
    ensures Playable(r) && r.frames == a.frames && r.loop == a.loop && r.sheet == a.sheet
    decreases Turns(a)
  {
    if !Due(a) then a
    else if Over(a) then a.(elapsed := 0.0)
    else
      TurnStops(a);
      Carried(Turn(a))
  }

  function Later(a: SpriteAnimation, delta: real): SpriteAnimation { a.(elapsed := a.elapsed + delta) }

  /** An animation without frames stays as it is. */
  ghost predicate Advanceable(a: SpriteAnimation, delta: real) { a.frames != [] ==> Playable(a) && EverStops(Later(a, delta)) }

  function Advanced(a: SpriteAnimation, delta: real): SpriteAnimation
    requires Advanceable(a, delta)
  {
    if a.frames == [] then a else Carried(Later(a, delta))
  }

  /** What is left is less than the current frame takes; or the animation stands at its last frame. Time that
      was not negative does not become so. */
  lemma {:induction false} CarriedRests(a: SpriteAnimation)
    requires Playable(a) && EverStops(a)
    ensures var r := Carried(a);
      && (r.elapsed < r.frames[r.currentFrame].duration || (Over(r) && r.elapsed == 0.0))
      && (a.elapsed >= 0.0 ==> r.elapsed >= 0.0)
      && ((forall f <- a.frames :: f.duration > 0.0) ==> r.elapsed < r.frames[r.currentFrame].duration)
    decreases Turns(a)
  {
    assert Carried(a).frames[Carried(a).currentFrame] in a.frames;
    if Due(a) && !Over(a) {
      TurnStops(a);
      CarriedRests(Turn(a));
    }
  }

  // ---- time is conserved ----------------------------------------------------------------------------

  /** Where in its cycle an animation is. */
  function Position(a: SpriteAnimation): real
    requires a.currentFrame < |a.frames|
  {
    StartOf(a.frames, a.currentFrame) + a.elapsed
  }

  lemma TurnMoves(a: SpriteAnimation)
    requires Playable(a)
    ensures Position(Turn(a)) == Position(a) - if a.currentFrame + 1 < |a.frames| then 0.0 else Cycle(a.frames)
  {
  }

  lemma {:induction false} LoopConserves(a: SpriteAnimation) returns (laps: nat)
    requires Playable(a) && EverStops(a) && a.loop
    ensures Position(a) == Position(Carried(a)) + Laps(laps, Cycle(a.frames))
    decreases Turns(a)
  {
    laps := 0;
    if Due(a) {
      TurnStops(a);
      TurnMoves(a);
      laps := LoopConserves(Turn(a));
      if a.currentFrame + 1 >= |a.frames| {
        laps := laps + 1;
      }
    }
  }

  /** Looping loses no time: the animation is where it was, less whole cycles. */
  lemma TimeConserved(a: SpriteAnimation) returns (laps: nat)
    requires Playable(a) && EverStops(a) && a.loop
    ensures Position(a) == Position(Carried(a)) + laps as real * Cycle(a.frames)
  {
    laps := LoopConserves(a);
    LapsMultiply(laps, Cycle(a.frames));
  }

  /** One that does not loop loses time only by standing at its last frame. */
  lemma {:induction false} OnceConserves(a: SpriteAnimation)
    requires Playable(a) && !a.loop
    ensures EverStops(a)
    ensures var r := Carried(a);
      Position(r) == Position(a) || (Over(r) && r.elapsed == 0.0 && Position(a) >= Cycle(a.frames))
    decreases |a.frames| - a.currentFrame
  {
    OnceStops(a);
    if Due(a) && !Over(a) {
      TurnMoves(a);
      OnceConserves(Turn(a));
    }
  }

  lemma {:induction false} UniformStart(frames: seq<Frame>, duration: real, n: nat)
    requires n <= |frames| && forall f <- frames :: f.duration == duration
    ensures StartOf(frames, n) == Laps(n, duration)
  {
    if n > 0 {
      assert frames[n - 1] in frames;
      UniformStart(frames, duration, n - 1);
    }
  }

  lemma WholeFrames(t: real, whole: nat, rest: real, duration: real)
    requires duration > 0.0 && t == Laps(whole, duration) + rest && 0.0 <= rest < duration
    ensures (t / duration).Floor == whole
  {
    LapsMultiply(whole, duration);
    QuotientSum(whole as real * duration, rest, duration);
    ProductQuotient(whole as real, duration);
    NonNegative(rest, duration);
    QuotientSum(duration - rest, rest, duration);
    PositiveQuotient(duration - rest, duration);
    assert t / duration == whole as real + rest / duration && rest / duration < 1.0;
  }

  lemma PositiveQuotient(x: real, d: real)
    requires x > 0.0 && d > 0.0
    ensures x / d > 0.0
  {
  }

  lemma SumOfProducts(current: nat, laps: nat, n: nat, duration: real)
    ensures current as real * duration + laps as real * (n as real * duration) == (current + laps * n) as real * duration
  {
    var x, y, z := current as real, laps as real, n as real;
    assert (laps * n) as real == y * z;
    assert x * duration + y * (z * duration) == (x + y * z) * duration;
  }

  lemma Wraps(current: nat, laps: nat, n: nat)
    requires current < n
    ensures (current + laps * n) % n == current
  {
    QuotientUnique(current + laps * n, n, laps, current);
  }

  lemma WholeLaps(current: nat, laps: nat, n: nat, duration: real) returns (whole: nat)
    requires current < n
    ensures Laps(current, duration) + Laps(laps, Laps(n, duration)) == Laps(whole, duration) && whole % n == current
  {
    whole := current + laps * n;
    Wraps(current, laps, n);
    LapsMultiply(current, duration);
    LapsMultiply(n, duration);
    LapsMultiply(laps, Laps(n, duration));
    LapsMultiply(whole, duration);
    SumOfProducts(current, laps, n, duration);
  }

  /** Equally long frames: time is whole frames and a rest shorter than one. */
  lemma UniformPosition(a: SpriteAnimation, duration: real) returns (whole: nat)
    requires Playable(a) && EverStops(a) && a.loop && a.elapsed >= 0.0
    requires duration > 0.0 && forall f <- a.frames :: f.duration == duration
    ensures var r := Carried(a);
      whole % |a.frames| == r.currentFrame && Position(a) == Laps(whole, duration) + r.elapsed && 0.0 <= r.elapsed < duration
  {
    var r := Carried(a);
    CarriedRests(a);
    assert r.frames[r.currentFrame] in r.frames;
    var laps := LoopConserves(a);
    UniformStart(a.frames, duration, |a.frames|);
    UniformStart(a.frames, duration, r.currentFrame);
    whole := WholeLaps(r.currentFrame, laps, |a.frames|, duration);
  }

  /** What a looping animation of equally long frames shows after time t: frame floor(t / duration), counted
      round and round. */
  lemma UniformShows(sheet: nat, indices: seq<nat>, duration: real, t: real)
    requires indices != [] && duration > 0.0 && t >= 0.0
    ensures Advanceable(Uniform(sheet, indices, duration, true), t)
    ensures Advanced(Uniform(sheet, indices, duration, true), t).currentFrame == (t / duration).Floor % |indices|
  {
    var a := Uniform(sheet, indices, duration, true);
    assert a.frames[0] in a.frames;
    OrdinaryEnds(Later(a, t));
    var whole := UniformPosition(Later(a, t), duration);
    WholeFrames(t, whole, Carried(Later(a, t)).elapsed, duration);
  }

  // ---- advancing twice ------------------------------------------------------------------------------

  lemma {:induction false} SoonerStops(a: SpriteAnimation, more: real, turns: nat)
    requires Playable(a) && more >= 0.0 && StopsWithin(Later(a, more), turns)
    ensures StopsWithin(a, turns)
    decreases turns
  {
    if Due(a) && !Over(a) {
      assert Turn(Later(a, more)) == Later(Turn(a), more);
      SoonerStops(Turn(a), more, turns - 1);
    }
  }

  lemma {:induction false} CarryTwice(a: SpriteAnimation, b: real)
    requires Playable(a) && EverStops(a) && b >= 0.0 && EverStops(Later(a, b))
    ensures EverStops(Later(Carried(a), b))
    ensures a.loop ==> Carried(Later(Carried(a), b)) == Carried(Later(a, b))
    ensures Carried(Later(Carried(a), b)).currentFrame == Carried(Later(a, b)).currentFrame
    decreases Turns(a)
  {
    if Due(a) {
      if Over(a) {
        OnceStops(Later(Carried(a), b));
      } else {
        TurnStops(a);
        TurnStops(Later(a, b));
        assert Turn(Later(a, b)) == Later(Turn(a), b);
        CarryTwice(Turn(a), b);
      }
    }
  }

  /** Advancing by x and then by y, which is not negative, is advancing by x + y: exactly so for a looping
      animation, and on the frame that is shown for one that is not. */
  lemma AdvanceAdds(a: SpriteAnimation, x: real, y: real)
    requires y >= 0.0 && Advanceable(a, x + y)
    ensures Advanceable(a, x) && Advanceable(Advanced(a, x), y)
    ensures a.loop ==> Advanced(Advanced(a, x), y) == Advanced(a, x + y)
    ensures Advanced(Advanced(a, x), y).currentFrame == Advanced(a, x + y).currentFrame
  {
    if a.frames != [] {
      assert Later(Later(a, x), y) == Later(a, x + y);
      SoonerStops(Later(a, x), y, Turns(Later(a, x + y)));
      CarryTwice(Later(a, x), y);
    }
  }

  // ---- the loops ------------------------------------------------------------------------------------

  class AnimationStore {
    var animations: map<nat, SpriteAnimation>

    constructor ()
      ensures animations == map[]
    {
      animations := map[];
    }

    /** advanceAnimations: the store is walked in no particular order. */
    method AdvanceAnimations(delta: real)
      requires forall id <- animations :: Advanceable(animations[id], delta)
      modifies this
      ensures animations.Keys == old(animations).Keys
      ensures forall id <- animations :: animations[id] == Advanced(old(animations)[id], delta)
    {
      var todo := animations.Keys;
      while todo != {}
        invariant todo <= animations.Keys == old(animations).Keys
        invariant forall id <- animations ::
          animations[id] == if id in todo then old(animations)[id] else Advanced(old(animations)[id], delta)
        decreases |todo|
      {
        var id :| id in todo;
        if animations[id].frames != [] {
          var anim := Carry(animations[id], delta);
          animations := animations[id := anim];
        }
        todo := todo - {id};
      }
    }

    static method Carry(a: SpriteAnimation, delta: real) returns (anim: SpriteAnimation)
      requires a.frames != [] && Advanceable(a, delta)
      ensures anim == Advanced(a, delta)
    {
      anim := a.(elapsed := a.elapsed + delta);
      while anim.elapsed >= anim.frames[anim.currentFrame].duration
        invariant Playable(anim) && EverStops(anim) && Carried(anim) == Advanced(a, delta)
        decreases Turns(anim)
      {
        ghost var before := anim;
        if !Over(anim) {
          TurnStops(anim);
        }
        anim := anim.(elapsed := anim.elapsed - anim.frames[anim.currentFrame].duration);
        if anim.currentFrame + 1 < |anim.frames| {
          anim := anim.(currentFrame := anim.currentFrame + 1);
        } else if anim.loop {
          anim := anim.(currentFrame := 0);
        } else {
          anim := anim.(elapsed := 0.0);
          assert anim == Carried(before);
          break;
        }
        assert anim == Turn(before);
      }
    }
  }
}
