/** Trees of timelines. A timeline reads its source when asked for the time, so a change to one node is
    seen by every node below it; the contracts here are about every timeline of a forest, not only the
    one that a method is called on. */
module Timelines {
  import opened Rational
  import opened Meters
  import opened MeterRanges

  const SPEED_SCALE: int := 1_000_000
  const MIN_SPEED: real := 0.000001
  const MAX_SPEED: real := 1000000.0

  /** A speed as it is asked for. Every comparison with NaN is false. */
  datatype Multiplier = NaN | Number(value: real)

  predicate AtLeast(m: Multiplier, x: real) { m.Number? && m.value >= x }

  predicate Above(m: Multiplier, x: real) { m.Number? && m.value > x }

  predicate InRange(m: Multiplier) { m.Number? && MIN_SPEED <= m.value <= MAX_SPEED }

  /** What a root reads: the steady clock, or an external counter. It never decreases. */
  class Counter {
    var value: int

    constructor (start: int)
      ensures value == start
    {
      value := start;
    }
  }

  /** num/den is (ticksPerSecond * speedNum) / (sourceRate * speedDen) in lowest terms. */
  ghost predicate ExactRate(num: int, den: int, ticksPerSecond: int, speedNum: int, sourceRate: int, speedDen: int) {
    && num > 0 && den > 0
    && Gcd(num, den) == 1
    && num * (sourceRate * speedDen) == (ticksPerSecond * speedNum) * den
    && LowestRate(num, den, ticksPerSecond * speedNum, sourceRate * speedDen)
  }

  class Timeline {
    const source: Timeline?
    const counter: Counter?              // roots only
    const rootUnitsPerSecond: int        // roots only
    ghost const depth: nat
    ghost const upstream: set<Timeline>  // every timeline this one runs on, directly or not
    ghost const clock: Counter           // the counter at the root of this tree

    var sourceStart: int
    var bankedTicks: int
    var remainder: int
    var rateNum: int
    var rateDen: int
    var ticksPerSecond: int
    var speedNum: int
    var speedDen: int
    var paused: bool
    var children: seq<Timeline>

    function View(): Meter
      reads this
    {
      Meter(sourceStart, bankedTicks, remainder, rateNum, rateDen, paused)
    }

    /** Sources are fixed at construction, so the tree above a timeline never changes. */
    ghost predicate Shaped()
      decreases depth
    {
      if source == null then
        upstream == {} && counter != null && counter == clock && rootUnitsPerSecond > 0
      else
        && source.depth < depth && source.Shaped()
        && upstream == source.upstream + {source} && clock == source.clock
    }

    function SourceRate(): int
      reads this, source
    {
      if source == null then rootUnitsPerSecond else source.ticksPerSecond
    }

    ghost predicate SettingsOk()
      reads this
    {
      ticksPerSecond > 0 && speedNum > 0 && speedDen > 0 && Gcd(speedNum, speedDen) == 1
    }

    ghost predicate LocalOk()
      reads this, source
    {
      && View().Valid()
      && SettingsOk()
      && ExactRate(rateNum, rateDen, ticksPerSecond, speedNum, SourceRate(), speedDen)
    }

    ghost predicate Valid()
      reads this, upstream, clock
      decreases depth, 1
    {
      && Shaped()
      && LocalOk()
      && (source != null ==> source.Valid())
      && sourceStart <= SourceNow()
    }

    function SourceNow(): int
      requires Shaped() && (source != null ==> source.Valid())
      reads this, upstream, clock
      decreases depth, 0
    {
      if source != null then source.Now() else counter.value
    }

    function Now(): int
      requires Valid()
      reads this, upstream, clock
      decreases depth, 2
    {
      if paused then bankedTicks
      else bankedTicks + ScaleElapsed(SourceNow() - sourceStart, remainder, rateNum, rateDen).ticks
    }

    lemma NowIsMeter()
      requires Valid()
      ensures Now() == View().Now(SourceNow())
    {
    }

    // ---- construction -----------------------------------------------------------------------------

    constructor Root(counter: Counter, unitsPerSecond: int)
      ensures Valid() && source == null && clock == counter && children == []
      ensures View() == Meter(counter.value, 0, 0, 1, 1, false)
      ensures ticksPerSecond == (if unitsPerSecond <= 0 then 1_000_000 else unitsPerSecond)
    {
      var units := if unitsPerSecond <= 0 then 1_000_000 else unitsPerSecond;
      this.source := null;
      this.counter := counter;
      this.rootUnitsPerSecond := units;
      this.depth := 0;
      this.upstream := {};
      this.clock := counter;
      this.ticksPerSecond := units;
      this.sourceStart, this.bankedTicks, this.remainder := counter.value, 0, 0;
      this.rateNum, this.rateDen, this.speedNum, this.speedDen := 1, 1, 1, 1;
      this.paused := false;
      this.children := [];
      new;
      assert Gcd(1, 1) == Gcd(1, 0) == 1;
      assert Gcd(units, units) == Gcd(units, 0) == units;
      QuotientUnique(units, units, 1, 0);
      assert LocalOk();
    }

    lemma RootStartsAtZero()
      requires Valid() && View() == Meter(SourceNow(), 0, 0, 1, 1, false)
      ensures Now() == 0
    {
      FreshlyBanked(View());
    }

    /** A derived timeline before its source knows of it. */
    constructor Detached(source: Timeline, ticksPerSecond: int)
      requires source.Valid()
      ensures this.source == source && Shaped() && LocalOk()
      ensures View() == Meter(source.Now(), 0, 0, rateNum, rateDen, false) && children == []
      ensures this.ticksPerSecond == if ticksPerSecond <= 0 then source.ticksPerSecond else ticksPerSecond
      ensures speedNum == speedDen == 1
    {
      this.source := source;
      this.counter := null;
      this.rootUnitsPerSecond := 0;
      this.depth := source.depth + 1;
      this.upstream := source.upstream + {source};
      this.clock := source.clock;
      this.ticksPerSecond := if ticksPerSecond <= 0 then source.ticksPerSecond else ticksPerSecond;
      this.bankedTicks, this.remainder := 0, 0;
      this.rateNum, this.rateDen, this.speedNum, this.speedDen := 1, 1, 1, 1;
      this.paused := false;
      this.children := [];
      this.sourceStart := source.Now();
      new;
      assert Gcd(1, 1) == Gcd(1, 0) == 1;
      RecomputeRate(rateDen);
    }

    /** A timeline running on this one. It starts at tick zero and disturbs no other. */
    method Derive(rate: int, ghost all: set<Timeline>) returns (child: Timeline)
      requires Forest(all) && this in all
      modifies `children
      ensures fresh(child) && child.source == this && Forest(all + {child})
      ensures child.Now() == 0 && !child.paused && child.children == []
      ensures child.ticksPerSecond == if rate <= 0 then ticksPerSecond else rate
      ensures children == old(children) + [child]
      ensures forall t <- all :: t.Now() == old(t.Now())
    {
      child := new Timeline.Detached(this, rate);
      ghost var m := child.View();
      FreshlyBanked(m);
      Register(child, all);
      assert child.View() == m && child.sourceStart == Now();
    }

    method Register(child: Timeline, ghost all: set<Timeline>)
      requires Forest(all) && this in all && child !in all
      requires child.source == this && child.Shaped() && child.LocalOk()
      requires child.children == [] && child.sourceStart == Now()
      modifies `children
      ensures Forest(all + {child}) && children == old(children) + [child]
      ensures forall t <- all :: t.Now() == old(t.Now())
    {
      children := children + [child];
      SameClocks(all);
      forall t | t in all ensures Linked(t, all + {child}) {
        assert old(Linked(t, all));
      }
    }

    /** ~Timeline: unregisters from the source. A timeline others still run on must not be destroyed. */
    method Destroy(ghost all: set<Timeline>)
      requires Forest(all) && this in all && children == []
      modifies if source == null then {} else {source}`children
      ensures Forest(all - {this})
      ensures forall t <- all :: t.Valid() && t.Now() == old(t.Now())
    {
      AllAbove(this, all);
      if source != null {
        Listed(this, all);
        ghost var i := source.Erase(this);
        SameClocks(all);
        Unregistered(this, i, all);
      } else {
        RootRemoved(this, all);
      }
    }

    /** std::erase of one registered child. */
    method Erase(child: Timeline) returns (ghost at: nat)
      requires child in children
      modifies `children
      ensures at < |old(children)| && old(children)[at] == child
      ensures children == old(children)[..at] + old(children)[at + 1..]
    {
      var i := 0;
      while children[i] != child
        invariant 0 <= i < |children|
        invariant child !in children[..i]
        decreases |children| - i
      {
        i := i + 1;
      }
      at := i;
      children := children[..i] + children[i + 1..];
    }

    // ---- bookkeeping ------------------------------------------------------------------------------

    method BankAt(sourceTicks: int)
      requires View().Valid() && sourceStart <= sourceTicks
      modifies `sourceStart, `bankedTicks, `remainder
      ensures View() == old(View()).Bank(sourceTicks)
    {
      var scaled := ScaleElapsed(if paused then 0 else sourceTicks - sourceStart, remainder, rateNum, rateDen);
      bankedTicks := bankedTicks + scaled.ticks;
      remainder := scaled.remainder;
      sourceStart := sourceTicks;
    }

    method RecomputeRate(previousRateDen: int)
      requires View().Valid() && previousRateDen == rateDen
      requires SettingsOk() && SourceRate() > 0
      modifies `rateNum, `rateDen, `remainder
      ensures View() == old(View()).Rerate(rateNum, rateDen)
      ensures ExactRate(rateNum, rateDen, ticksPerSecond, speedNum, SourceRate(), speedDen)
      ensures SettingsFit() && Fits(previousRateDen) ==>
        Recompute64(ticksPerSecond, speedNum, SourceRate(), speedDen, old(remainder), previousRateDen)
        == if RatesFit(ticksPerSecond, speedNum, SourceRate(), speedDen, old(remainder))
           then Rates(rateNum, rateDen, remainder) else RatesOverflow
    {
      if SettingsFit() && Fits(previousRateDen) {
        Recompute64Exact(ticksPerSecond, speedNum, SourceRate(), speedDen, remainder, previousRateDen);
      }
      var rawNum, rawDen := ticksPerSecond * speedNum, SourceRate() * speedDen;
      PositiveProduct(ticksPerSecond, speedNum);
      PositiveProduct(SourceRate(), speedDen);
      var divisor := Gcd(rawNum, rawDen);
      LowestTerms(rawNum, rawDen);
      rateNum := rawNum / divisor;
      rateDen := rawDen / divisor;
      remainder := remainder * rateDen / previousRateDen;
    }

    // ---- changes ----------------------------------------------------------------------------------

    /** Out of range, or not a number, is refused. Otherwise the speed becomes the multiplier rounded to a millionth. */
    method SetSpeedMultiplier(multiplier: Multiplier, ghost all: set<Timeline>)
      requires Forest(all) && this in all
      modifies `sourceStart, `bankedTicks, `remainder, `rateNum, `rateDen, `speedNum, `speedDen
      ensures Forest(all)
      ensures forall t <- all :: t.Now() == old(t.Now())
      ensures if InRange(multiplier)
              then && speedNum * SPEED_SCALE == Rounded(multiplier.value * SPEED_SCALE as real) * speedDen
                   && View() == old(View()).Bank(old(SourceNow())).Rerate(rateNum, rateDen)
              else View() == old(View()) && speedNum == old(speedNum) && speedDen == old(speedDen)
      ensures InRange(multiplier) ==> Exact64(old(SourceNow()))
    {
      if !AtLeast(multiplier, MIN_SPEED) || Above(multiplier, MAX_SPEED) {
        return;
      }
      ghost var m, now := View(), SourceNow();
      BankAt(SourceNow());
      BankInvisible(m, now, now);
      var previousRateDen := rateDen;
      var scaledSpeed := Rounded(multiplier.value * SPEED_SCALE as real);
      var divisor := Gcd(scaledSpeed, SPEED_SCALE);
      LowestTerms(scaledSpeed, SPEED_SCALE);
      speedNum := scaledSpeed / divisor;
      speedDen := SPEED_SCALE / divisor;
      RecomputeRate(previousRateDen);
      RerateKeepsNow(m.Bank(now), rateNum, rateDen);
      RatesIn64(now);
      Settle({this}, all);
    }

    method SetTicksPerSecond(rate: int, ghost all: set<Timeline>)
      requires Forest(all) && this in all
      modifies this, children
      ensures Forest(all)
      ensures forall t <- all :: t.Now() == old(t.Now()) && t.children == old(t.children) && t.paused == old(t.paused)
      ensures ticksPerSecond == if rate <= 0 then old(ticksPerSecond) else rate
      ensures View() == if rate <= 0 then old(View()) else old(View()).Bank(old(SourceNow())).Rerate(rateNum, rateDen)
      ensures forall t <- all :: t != this ==> t.ticksPerSecond == old(t.ticksPerSecond)
      ensures rate > 0 ==> Exact64(old(SourceNow())) && forall c <- children :: c.Exact64(old(Now()))
    {
      if rate <= 0 {
        return;
      }
      ghost var m, now := View(), SourceNow();
      RebaseFamily(rate, all);
      RatesIn64(now);
      assert Steady() by {
        BankAndRerateKeepNow(m, now, rateNum, rateDen);
      }
      forall c | c in children ensures c.Steady() && c.Exact64(old(Now())) {
        assert old(c.Valid()) && old(c.SourceNow()) == old(Now());
        BankAndRerateKeepNow(old(c.View()), old(Now()), c.rateNum, c.rateDen);
        c.RatesIn64(old(Now()));
      }
      forall u | u in all && u != this && u !in children ensures u.Frozen() {
        assert old(u.Valid() && Linked(u, all));
        assert u.source != null ==> u.source != this && u.source.ticksPerSecond == old(u.source.ticksPerSecond);
      }
      Settle({this} + (set c <- children), all);
    }

    /** The body of SetTicksPerSecond on a positive rate. */
    method RebaseFamily(rate: int, ghost all: set<Timeline>)
      requires Forest(all) && this in all && rate > 0
      modifies this, children
      ensures ticksPerSecond == rate && LocalOk() && paused == old(paused) && unchanged(`children)
      ensures View() == old(View()).Bank(old(SourceNow())).Rerate(rateNum, rateDen)
      ensures forall c <- children :: c in all && c != this && c.source == this && c.SameSettings() && c.LocalOk()
      ensures forall c <- children :: old(c.View()).Valid() && old(c.sourceStart) <= old(Now())
      ensures forall c <- children :: c.View() == old(c.View()).Bank(old(Now())).Rerate(c.rateNum, c.rateDen)
    {
      BankFamily(all);
      forall c | c in children ensures c.View().Valid() {
        BankValid(old(c.View()), bankedTicks);
      }
      RerateFamily(rate);
    }

    /** Banks this timeline, and then every child at the instant this one now shows. */
    method BankFamily(ghost all: set<Timeline>)
      requires Forest(all) && this in all
      modifies `sourceStart, `bankedTicks, `remainder, children
      ensures View() == old(View()).Bank(old(SourceNow())) && View().Valid() && bankedTicks == old(Now())
      ensures SettingsOk() && SourceRate() > 0
      ensures Distinct(children) && source != this && source !in children && unchanged(`children)
      ensures forall c <- children :: c in all && c != this && c.source == this && c.SameSettings() && c.SettingsOk()
      ensures forall c <- children :: old(c.View()).Valid() && old(c.sourceStart) <= bankedTicks
      ensures forall c <- children :: c.View() == old(c.View()).Bank(bankedTicks)
    {
      ChildrenBehind(this, all);
      BankSelf();
      BankChildren();
    }

    method BankSelf()
      requires Valid()
      modifies `sourceStart, `bankedTicks, `remainder
      ensures View() == old(View()).Bank(old(SourceNow())) && View().Valid() && bankedTicks == old(Now())
    {
      ghost var m, now := View(), SourceNow();
      NowIsMeter();
      BankAt(SourceNow());
      BankInvisible(m, now, now);
      FreshlyBanked(m.Bank(now));
    }

    /** Changes this timeline's tick rate, and with it the rates its children have to it. */
    method RerateFamily(rate: int)
      requires rate > 0 && View().Valid() && SettingsOk() && SourceRate() > 0
      requires Distinct(children)
      requires forall c <- children :: c != this && c.source == this && c.View().Valid() && c.SettingsOk()
      requires source != this && source !in children
      modifies `ticksPerSecond, `rateNum, `rateDen, `remainder, children
      ensures ticksPerSecond == rate && View() == old(View()).Rerate(rateNum, rateDen) && LocalOk()
      ensures forall c <- children :: c.View() == old(c.View()).Rerate(c.rateNum, c.rateDen) && c.LocalOk() && c.SameSettings()
    {
      ghost var m := View();
      var previousRateDen := rateDen;
      ticksPerSecond := rate;
      RecomputeRate(previousRateDen);
      RerateKeepsNow(m, rateNum, rateDen);
      RecomputeChildren();
    }

    method BankChildren()
      requires Distinct(children)
      requires forall c <- children :: c != this && c.View().Valid() && c.sourceStart <= bankedTicks
      modifies children
      ensures unchanged(this)
      ensures forall c <- old(children) :: c.View() == old(c.View()).Bank(bankedTicks) && c.SameSettings()
    {
      var i := 0;
      while i < |children|
        invariant 0 <= i <= |children| && unchanged(this)
        invariant forall c <- children :: c.SameSettings()
        invariant forall j :: 0 <= j < i ==> children[j].View() == old(children[j].View()).Bank(bankedTicks)
        invariant forall j :: i <= j < |children| ==> children[j].View() == old(children[j].View())
      {
        children[i].BankAt(bankedTicks);
        i := i + 1;
      }
    }

    method RecomputeChildren()
      requires Distinct(children) && ticksPerSecond > 0
      requires forall c <- children :: c != this && c.source == this && c.View().Valid() && c.SettingsOk()
      modifies children
      ensures unchanged(this)
      ensures forall c <- old(children) :: c.View() == old(c.View()).Rerate(c.rateNum, c.rateDen) && c.LocalOk() && c.SameSettings()
    {
      var i := 0;
      while i < |children|
        invariant 0 <= i <= |children| && unchanged(this)
        invariant forall c <- children :: c.SameSettings()
        invariant forall j :: 0 <= j < i ==> children[j].Rerated()
        invariant forall j :: i <= j < |children| ==> children[j].View() == old(children[j].View())
      {
        var child := children[i];
        assert child.SameSettings() && child.View() == old(child.View()) && child.SourceRate() == ticksPerSecond;
        child.RecomputeRate(child.rateDen);
        RerateKeepsNow(old(child.View()), child.rateNum, child.rateDen);
        i := i + 1;
      }
    }

    method Pause(ghost all: set<Timeline>)
      requires Forest(all) && this in all
      modifies `sourceStart, `bankedTicks, `remainder, `paused
      ensures Forest(all)
      ensures paused && View() == old(View()).Pause(old(SourceNow())) && Same64(Pausing(old(SourceNow())))
      ensures forall t <- all :: t.Now() == old(t.Now())
    {
      ghost var m, now := View(), SourceNow();
      CallIn64(Pausing(now));
      if paused {
        return;
      }
      BankAt(SourceNow());
      paused := true;
      PauseKeepsNow(m, now, now);
      Settle({this}, all);
    }

    method Unpause(ghost all: set<Timeline>)
      requires Forest(all) && this in all
      modifies `sourceStart, `bankedTicks, `remainder, `paused
      ensures Forest(all)
      ensures !paused && View() == old(View()).Unpause(old(SourceNow())) && Same64(Unpausing(old(SourceNow())))
      ensures forall t <- all :: t.Now() == old(t.Now())
    {
      ghost var m, now := View(), SourceNow();
      CallIn64(Unpausing(now));
      if !paused {
        return;
      }
      BankAt(SourceNow());
      paused := false;
      PauseKeepsNow(m, now, now);
      Settle({this}, all);
    }

    // ---- what a local change does to the tree -----------------------------------------------------

    twostate predicate SameSettings()
      reads this
    {
      && ticksPerSecond == old(ticksPerSecond)
      && speedNum == old(speedNum) && speedDen == old(speedDen)
      && children == old(children) && paused == old(paused)
    }

    twostate predicate Rerated()
      reads this, source
    {
      old(View()).Valid() && View() == old(View()).Rerate(rateNum, rateDen) && LocalOk()
    }

    /** This timeline may have been rewritten, but for the source reading it had it still shows the same. */
    twostate predicate Steady()
      reads this, source
    {
      && LocalOk()
      && (old(Valid()) ==>
            var s := old(SourceNow());
            View().start <= s && View().Now(s) == old(View()).Now(s))
    }

    ghost predicate SettingsFit()
      reads this, source
    {
      Fits(ticksPerSecond) && Fits(speedNum) && Fits(speedDen) && Fits(SourceRate())
    }

    /** Evaluated in 64 bits, banking at this source reading and recomputing the rate ends in this very state
        if its products fit, and is undefined otherwise. */
    twostate predicate Exact64(new at: int)
      reads this, source
    {
      old(View()).Valid() && old(sourceStart) <= at && SettingsOk() && SourceRate() > 0 && MeterFits(old(View())) && SettingsFit() ==>
        SetRate64(old(View()), at, ticksPerSecond, speedNum, SourceRate(), speedDen)
        == if SetRateFits(old(View()), at, ticksPerSecond, speedNum, SourceRate(), speedDen) then Running(View()) else Fault
    }

    twostate lemma RatesIn64(new at: int)
      requires old(View()).Valid() && old(sourceStart) <= at && LocalOk()
      requires View() == old(View()).Bank(at).Rerate(rateNum, rateDen)
      ensures Exact64(at)
    {
      if SourceRate() > 0 && MeterFits(old(View())) && SettingsFit() {
        SetRate64Exact(old(View()), at, ticksPerSecond, speedNum, SourceRate(), speedDen, rateNum, rateDen);
      }
    }

    /** Evaluated in 64 bits, this call ends in this very state if what it banks fits, and is undefined otherwise. */
    twostate predicate Same64(new c: Call)
      reads this
    {
      old(View()).Valid() && old(sourceStart) <= c.at && MeterFits(old(View())) && CallFits(c) ==>
        Step64(old(View()), c) == if StepFits(old(View()), c) then Running(View()) else Fault
    }

    lemma CallIn64(c: Call)
      requires View().Valid() && sourceStart <= c.at
      ensures MeterFits(View()) && CallFits(c) ==>
        Step64(View(), c) == if StepFits(View(), c) then Running(Step(View(), EventOf(c))) else Fault
    {
      if MeterFits(View()) && CallFits(c) {
        Step64Exact(View(), c);
      }
    }

    twostate predicate Frozen()
      reads this, source
    {
      View() == old(View()) && LocalOk()
    }
  }

  /** By induction from the root down: rewritten nodes are steady, the others see an unchanged source. */
  twostate lemma {:induction false} Undisturbed(t: Timeline, new changed: set<Timeline>)
    requires old(t.Valid()) && t.clock.value == old(t.clock.value)
    requires forall u <- t.upstream + {t} :: if u in changed then u.Steady() else u.Frozen()
    ensures t.Valid() && t.Now() == old(t.Now())
    decreases t.depth
  {
    if t.source != null {
      Undisturbed(t.source, changed);
    }
    assert t in t.upstream + {t};
    assert t.SourceNow() == old(t.SourceNow());
  }

  lemma Listed(n: Timeline, all: set<Timeline>)
    requires Forest(all) && n in all && n.source != null
    ensures n.source in all && n in n.source.children
  {
    assert Linked(n, all) && n.source in n.upstream;
  }

  /** What a timeline may assume of the children registered with it. */
  lemma ChildrenBehind(n: Timeline, all: set<Timeline>)
    requires Forest(all) && n in all
    ensures Distinct(n.children) && n.source != n && n.source !in n.children
    ensures forall c <- n.children :: c in all && c != n && c.source == n && c.Valid() && c.sourceStart <= n.Now()
    ensures n.SettingsOk() && n.SourceRate() > 0
  {
    assert Linked(n, all);
    forall c | c in n.children
      ensures c in all && c != n && c.source == n && c.Valid() && c.sourceStart <= n.Now() && n.source != c
    {
      assert c.SourceNow() == n.Now();
    }
  }

  /** Nothing runs on a timeline that has no registered children. */
  lemma {:induction false} NothingBelow(n: Timeline, t: Timeline, all: set<Timeline>)
    requires Forest(all) && n in all && t in all && n.children == []
    ensures n !in t.upstream
    decreases t.depth
  {
    if t.source != null {
      assert t.source in t.upstream && Linked(t, all);
      assert t in t.source.children;
      NothingBelow(n, t.source, all);
    }
  }

  lemma AllAbove(n: Timeline, all: set<Timeline>)
    requires Forest(all) && n in all && n.children == []
    ensures forall t <- all :: n !in t.upstream
  {
    forall t | t in all ensures n !in t.upstream {
      NothingBelow(n, t, all);
    }
  }

  lemma RootRemoved(n: Timeline, all: set<Timeline>)
    requires Forest(all) && n in all && n.source == null
    requires forall t <- all :: n !in t.upstream
    ensures Forest(all - {n})
  {
    forall t | t in all - {n} ensures Linked(t, all - {n}) {
      assert Linked(t, all);
    }
  }

  twostate lemma Unregistered(new n: Timeline, new i: nat, all: set<Timeline>)
    requires old(Forest(all)) && n in all && n.source != null
    requires i < |old(n.source.children)| && old(n.source.children)[i] == n
    requires n.source.children == old(n.source.children)[..i] + old(n.source.children)[i + 1..]
    requires forall t <- all - {n.source} :: t.children == old(t.children)
    requires forall t <- all :: n !in t.upstream
    ensures forall t <- all - {n} :: Linked(t, all - {n})
  {
    var s := old(n.source.children);
    assert old(Linked(n, all)) && n.source in n.upstream;
    assert old(Linked(n.source, all));
    assert forall t :: t in n.source.children <==> t in s && t != n by {
      Dropped(s, i);
    }
    forall t | t in all - {n} ensures Linked(t, all - {n}) {
      assert old(Linked(t, all));
      assert t.source == n.source && t.source != null ==> t in n.source.children;
    }
  }

  lemma Dropped(s: seq<Timeline>, i: nat)
    requires i < |s| && Distinct(s)
    ensures forall t :: t in s[..i] + s[i + 1..] <==> t in s && t != s[i]
    ensures Distinct(s[..i] + s[i + 1..])
  {
    var d := s[..i] + s[i + 1..];
    forall t | t in s && t != s[i] ensures t in d {
      var k :| 0 <= k < |s| && s[k] == t;
      assert d[if k < i then k else k - 1] == t;
    }
    forall j, k | 0 <= j < k < |d| ensures d[j] != d[k] {
      assert d[j] == s[if j < i then j else j + 1] && d[k] == s[if k < i then k else k + 1];
    }
  }

  /** A change to who is registered where moves no clock. */
  twostate lemma SameClocks(all: set<Timeline>)
    requires old(Forest(all))
    requires forall u <- all :: u.Frozen() && u.clock.value == old(u.clock.value)
    ensures forall t <- all :: t.Valid() && t.Now() == old(t.Now())
  {
    forall t | t in all ensures t.Valid() && t.Now() == old(t.Now()) {
      assert old(Linked(t, all)) && forall u <- t.upstream + {t} :: u in all;
      Undisturbed(t, {});
    }
  }

  /** The setters' common last step. */
  twostate lemma Settle(new changed: set<Timeline>, all: set<Timeline>)
    requires old(Forest(all)) && changed <= all
    requires forall u <- all :: if u in changed then u.Steady() else u.Frozen()
    requires forall u <- all :: u.children == old(u.children) && u.clock.value == old(u.clock.value)
    ensures Forest(all)
    ensures forall t <- all :: t.Now() == old(t.Now())
  {
    forall t | t in all ensures t.Valid() && t.Now() == old(t.Now()) && Linked(t, all) {
      assert old(Linked(t, all)) && forall u <- t.upstream + {t} :: u in all;
      Undisturbed(t, changed);
    }
  }

  /** std::llround on a positive argument. */
  function Rounded(x: real): (n: int)
    ensures n as real <= x + 0.5 < n as real + 1.0
  {
    (x + 0.5).Floor
  }

  ghost predicate Distinct(s: seq<Timeline>) {
    forall i, j :: 0 <= i < j < |s| ==> s[i] != s[j]
  }

  /** Sources and registered children agree, inside all. */
  ghost predicate Linked(t: Timeline, all: set<Timeline>)
    reads t, t.source
  {
    && t.upstream <= all
    && (t.source != null ==> t in t.source.children)
    && (forall c <- t.children :: c in all && c.source == t)
    && Distinct(t.children)
  }

  /** A set of timelines closed under sources and registered children. */
  ghost predicate Forest(all: set<Timeline>)
    reads *
  {
    && (forall t <- all :: t.Valid())
    && (forall t {:trigger Linked(t, all)} | t in all :: Linked(t, all))
  }

  /** The outside world moves a root counter on. No timeline on it goes back; a paused one, and any that
      runs on another counter, stays where it is. */
  method Advance(counter: Counter, amount: nat, ghost all: set<Timeline>)
    requires Forest(all)
    modifies counter
    ensures counter.value == old(counter.value) + amount
    ensures Forest(all)
    ensures forall t <- all :: t.Now() >= old(t.Now())
    ensures forall t <- all :: t.paused || t.clock != counter ==> t.Now() == old(t.Now())
  {
    counter.value := counter.value + amount;
    forall t | t in all
      ensures t.Valid() && Linked(t, all) && t.Now() >= old(t.Now())
      ensures t.paused || t.clock != counter ==> t.Now() == old(t.Now())
    {
      assert old(Linked(t, all)) && forall u <- t.upstream + {t} :: u in all;
      NeverBack(t);
    }
  }

  twostate lemma {:induction false} NeverBack(t: Timeline)
    requires old(t.Valid()) && t.clock.value >= old(t.clock.value)
    requires forall u <- t.upstream + {t} :: u.View() == old(u.View()) && u.LocalOk()
    ensures t.Valid() && t.Now() >= old(t.Now())
    ensures t.paused || t.clock.value == old(t.clock.value) ==> t.Now() == old(t.Now())
    decreases t.depth
  {
    if t.source != null {
      NeverBack(t.source);
    }
    assert t in t.upstream + {t};
    assert t.SourceNow() >= old(t.SourceNow());
    NowMonotonic(t.View(), old(t.SourceNow()), t.SourceNow());
  }
}
