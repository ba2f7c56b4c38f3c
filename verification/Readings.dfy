/** What a timeline reads in 64-bit arithmetic, through every source on its way to the root. */
module Readings {
  import opened Rational
  import opened MeterRanges
  import opened Timelines

  /** now(), with the readings of the sources it goes through, operation by operation. */
  ghost function Read64(t: Timeline): (r: Checked)
    requires t.Valid()
    reads t, t.upstream, t.clock
    ensures r.Value? ==> r.n == t.Now()
    decreases t.depth, 1
  {
    var at := SourceRead64(t);
    t.NowIsMeter();
    if t.paused then Check(t.bankedTicks) else if at.Overflow? then Overflow else Now64(t.View(), at.n)
  }

  ghost function SourceRead64(t: Timeline): (r: Checked)
    requires t.Valid()
    reads t, t.upstream, t.clock
    ensures r.Value? ==> r.n == t.SourceNow()
    decreases t.depth, 0
  {
    if t.source != null then Read64(t.source) else Check(t.counter.value)
  }

  /** Up to the first paused one, what each timeline on the way to the root would bank fits. */
  ghost predicate PathFits(t: Timeline)
    requires t.Valid()
    reads t, t.upstream, t.clock
    decreases t.depth
  {
    t.paused || ((t.source != null ==> PathFits(t.source)) && BankFits(t.View(), t.SourceNow()))
  }

  /** A reading is exact if and only if everything on its way fits. */
  lemma {:induction false} Read64Exact(t: Timeline)
    requires t.Valid() && Fits(t.clock.value) && forall u <- t.upstream + {t} :: MeterFits(u.View())
    ensures Read64(t) == if PathFits(t) then Value(t.Now()) else Overflow
    decreases t.depth
  {
    if !t.paused {
      if t.source != null {
        Read64Exact(t.source);
      }
      Now64Exact(t.View(), t.SourceNow());
    }
  }
}
