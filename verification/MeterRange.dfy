/** The meter in 64-bit arithmetic: exactly when a run of banks, pauses and changes of rate computes what the
    unbounded meter computes, and what of the settings alone is enough for that. */
module MeterRanges {
  import opened Rational
  import opened Meters

  /** An intermediate that does not fit is undefined behaviour; nothing is said of what follows it. */
  datatype Machine = Fault | Running(m: Meter)

  type Positive = n: int | n > 0 witness 1

  /** What a timeline goes through, by the time its source shows. A change of rate carries the settings that the
      rate is computed from. */
  datatype Call =
    | Banking(at: int)
    | Setting(at: int, ticks: Positive, speedNum: Positive, sourceRate: Positive, speedDen: Positive)
    | Pausing(at: int)
    | Unpausing(at: int)

  /** num/den is the rate in lowest terms, as dividing both raw terms by their gcd gives it. */
  ghost predicate LowestRate(num: int, den: int, rawNum: int, rawDen: int) {
    rawNum > 0 && rawDen > 0 && num == rawNum / Gcd(rawNum, rawDen) && den == rawDen / Gcd(rawNum, rawDen)
  }

  /** The exact rate that settings ask for. */
  function LowestNum(c: Call): (num: int)
    requires c.Setting?
    ensures num > 0
  {
    PositiveProduct(c.ticks, c.speedNum);
    PositiveProduct(c.sourceRate, c.speedDen);
    LowestTerms(c.ticks * c.speedNum, c.sourceRate * c.speedDen);
    c.ticks * c.speedNum / Gcd(c.ticks * c.speedNum, c.sourceRate * c.speedDen)
  }

  function LowestDen(c: Call): (den: int)
    requires c.Setting?
    ensures den > 0
  {
    PositiveProduct(c.ticks, c.speedNum);
    PositiveProduct(c.sourceRate, c.speedDen);
    LowestTerms(c.ticks * c.speedNum, c.sourceRate * c.speedDen);
    c.sourceRate * c.speedDen / Gcd(c.ticks * c.speedNum, c.sourceRate * c.speedDen)
  }

  /** The same, as the unbounded meter is told. */
  function EventOf(c: Call): (e: Event)
    ensures e.at == c.at && (e.Rerated? ==> e.num > 0 && e.den > 0)
  {
    match c
    case Banking(at) => Banked(at)
    case Setting(at, _, _, _, _) => Rerated(at, LowestNum(c), LowestDen(c))
    case Pausing(at) => Paused(at)
    case Unpausing(at) => Unpaused(at)
  }

  function EventsOf(calls: seq<Call>): seq<Event> {
    if calls == [] then [] else [EventOf(calls[0])] + EventsOf(calls[1..])
  }

  ghost predicate InOrder(start: int, calls: seq<Call>)
    decreases |calls|
  {
    calls != [] ==> start <= calls[0].at && InOrder(calls[0].at, calls[1..])
  }

  lemma {:induction false} OrderedTimely(start: int, calls: seq<Call>)
    ensures InOrder(start, calls) <==> Timely(start, EventsOf(calls))
    decreases |calls|
  {
    if calls != [] {
      assert EventsOf(calls)[1..] == EventsOf(calls[1..]);
      OrderedTimely(calls[0].at, calls[1..]);
    }
  }

  ghost predicate MeterFits(m: Meter) {
    Fits(m.start) && Fits(m.banked) && Fits(m.num) && Fits(m.den)
  }

  ghost predicate CallFits(c: Call) {
    Fits(c.at) && (c.Setting? ==> Fits(c.ticks) && Fits(c.speedNum) && Fits(c.sourceRate) && Fits(c.speedDen))
  }

  ghost predicate CallsFit(calls: seq<Call>) { forall c <- calls :: CallFits(c) }

  function Counted(m: Meter, at: int): int { if m.paused then 0 else at - m.start }

  // ---- banking and reading ------------------------------------------------------------------------

  function Bank64(m: Meter, at: int): (r: Machine)
    requires m.Valid() && m.start <= at
    ensures r.Running? ==> r.m.Valid() && r.m.start == at
  {
    var elapsed := Check(Counted(m, at));
    if elapsed.Overflow? then Fault else
    var scaled := ScaleElapsed64(elapsed.n, m.remainder, m.num, m.den);
    if scaled.Overflow64? then Fault else
    var banked := CheckedAdd(Check(m.banked), Check(scaled.result.ticks));
    if banked.Overflow? then Fault else
    Running(m.(banked := banked.n, remainder := scaled.result.remainder, start := at))
  }

  ghost predicate BankFits(m: Meter, at: int)
    requires m.Valid() && m.start <= at
  {
    var e := Counted(m, at);
    && Fits(e) && Fits((e * m.num + m.remainder) / m.den) && Fits(m.remainder + (e % m.den) * m.num)
    && Fits(m.Bank(at).banked)
  }

  lemma Bank64Exact(m: Meter, at: int)
    requires m.Valid() && m.start <= at && MeterFits(m)
    ensures m.Bank(at).Valid()
    ensures Bank64(m, at) == if BankFits(m, at) then Running(m.Bank(at)) else Fault
    ensures BankFits(m, at) && Fits(at) ==> MeterFits(m.Bank(at))
  {
    BankValid(m, at);
    var e := Counted(m, at);
    ScaleElapsedExact(e, m.remainder, m.num, m.den);
    if Fits(e) {
      ScaleElapsed64Exact(e, m.remainder, m.num, m.den);
    }
  }

  /** The reading, operation by operation: nothing is stored. */
  function Now64(m: Meter, at: int): (r: Checked)
    requires m.Valid() && m.start <= at
    ensures r.Value? ==> r.n == m.Now(at)
  {
    if m.paused then Check(m.banked) else
    var elapsed := Check(at - m.start);
    if elapsed.Overflow? then Overflow else
    var scaled := ScaleElapsed64(elapsed.n, m.remainder, m.num, m.den);
    if scaled.Overflow64? then Overflow else CheckedAdd(Check(m.banked), Check(scaled.result.ticks))
  }

  /** A reading is exact if and only if the clock is paused or banking there would be. */
  lemma Now64Exact(m: Meter, at: int)
    requires m.Valid() && m.start <= at && MeterFits(m)
    ensures Now64(m, at) == if m.paused || BankFits(m, at) then Value(m.Now(at)) else Overflow
  {
    Bank64Exact(m, at);
    if !m.paused {
      ScaleElapsedExact(at - m.start, m.remainder, m.num, m.den);
      if Fits(at - m.start) {
        ScaleElapsed64Exact(at - m.start, m.remainder, m.num, m.den);
      }
    }
  }

  // ---- a setter, from its settings ------------------------------------------------------------------

  /** Banking and then recomputing the rate from the tick rates and the speed, as the setters do. */
  function SetRate64(m: Meter, at: int, ticks: nat, speedNum: nat, sourceRate: nat, speedDen: nat): (r: Machine)
    requires m.Valid() && m.start <= at && ticks > 0 && speedNum > 0 && sourceRate > 0 && speedDen > 0
    ensures r.Running? ==> r.m.Valid() && r.m.start == at
  {
    var banked := Bank64(m, at);
    if banked.Fault? then Fault else
    var rates := Recompute64(ticks, speedNum, sourceRate, speedDen, banked.m.remainder, banked.m.den);
    if rates.RatesOverflow? then Fault
    else Running(banked.m.(num := rates.num, den := rates.den, remainder := rates.remainder))
  }

  ghost predicate SetRateFits(m: Meter, at: int, ticks: nat, speedNum: nat, sourceRate: nat, speedDen: nat)
    requires m.Valid() && m.start <= at && ticks > 0 && speedNum > 0 && sourceRate > 0 && speedDen > 0
  {
    BankValid(m, at);
    BankFits(m, at) && RatesFit(ticks, speedNum, sourceRate, speedDen, m.Bank(at).remainder)
  }

  lemma SetRate64Exact(m: Meter, at: int, ticks: nat, speedNum: nat, sourceRate: nat, speedDen: nat, num: int, den: int)
    requires m.Valid() && m.start <= at && MeterFits(m)
    requires ticks > 0 && speedNum > 0 && sourceRate > 0 && speedDen > 0
    requires Fits(ticks) && Fits(speedNum) && Fits(sourceRate) && Fits(speedDen)
    requires LowestRate(num, den, ticks * speedNum, sourceRate * speedDen)
    ensures m.Bank(at).Valid()
    ensures SetRate64(m, at, ticks, speedNum, sourceRate, speedDen)
            == if SetRateFits(m, at, ticks, speedNum, sourceRate, speedDen) then Running(m.Bank(at).Rerate(num, den)) else Fault
  {
    Bank64Exact(m, at);
    var b := m.Bank(at);
    Recompute64Exact(ticks, speedNum, sourceRate, speedDen, b.remainder, b.den);
  }

  // ---- one call -----------------------------------------------------------------------------------

  /** Pausing twice does not bank again, nor does unpausing twice. */
  function Step64(m: Meter, c: Call): (r: Machine)
    requires m.Valid() && m.start <= c.at
    ensures r.Running? ==> r.m.Valid() && r.m.start <= c.at
  {
    match c
    case Banking(at) => Bank64(m, at)
    case Setting(at, ticks, speedNum, sourceRate, speedDen) => SetRate64(m, at, ticks, speedNum, sourceRate, speedDen)
    case Pausing(at) => if m.paused then Running(m) else WithPause(Bank64(m, at), true)
    case Unpausing(at) => if !m.paused then Running(m) else WithPause(Bank64(m, at), false)
  }

  function WithPause(r: Machine, paused: bool): Machine {
    if r.Fault? then Fault else Running(r.m.(paused := paused))
  }

  ghost predicate StepFits(m: Meter, c: Call)
    requires m.Valid() && m.start <= c.at
  {
    match c
    case Banking(at) => BankFits(m, at)
    case Setting(at, ticks, speedNum, sourceRate, speedDen) => SetRateFits(m, at, ticks, speedNum, sourceRate, speedDen)
    case Pausing(at) => m.paused || BankFits(m, at)
    case Unpausing(at) => !m.paused || BankFits(m, at)
  }

  lemma SettingExact(m: Meter, c: Call)
    requires m.Valid() && MeterFits(m) && m.start <= c.at && CallFits(c) && c.Setting?
    ensures Step64(m, c) == if StepFits(m, c) then Running(Step(m, EventOf(c))) else Fault
    ensures StepFits(m, c) ==> MeterFits(Step(m, EventOf(c)))
  {
    PositiveProduct(c.ticks, c.speedNum);
    PositiveProduct(c.sourceRate, c.speedDen);
    var rawNum, rawDen := c.ticks * c.speedNum, c.sourceRate * c.speedDen;
    Bank64Exact(m, c.at);
    SetRate64Exact(m, c.at, c.ticks, c.speedNum, c.sourceRate, c.speedDen, LowestNum(c), LowestDen(c));
    Bounds(rawNum, Gcd(rawNum, rawDen), 0);
    Bounds(rawDen, Gcd(rawNum, rawDen), 0);
  }

  lemma Step64Exact(m: Meter, c: Call)
    requires m.Valid() && MeterFits(m) && m.start <= c.at && CallFits(c)
    ensures Step64(m, c) == if StepFits(m, c) then Running(Step(m, EventOf(c))) else Fault
    ensures Step(m, EventOf(c)).Valid() && Step(m, EventOf(c)).start <= c.at
    ensures StepFits(m, c) ==> MeterFits(Step(m, EventOf(c)))
  {
    OneTimely(m, c);
    StepValid(m, EventOf(c));
    Bank64Exact(m, c.at);
    if c.Setting? {
      SettingExact(m, c);
    }
  }

  lemma OneTimely(m: Meter, c: Call)
    requires m.start <= c.at
    ensures Timely(m.start, [EventOf(c)])
  {
    assert [EventOf(c)][0] == EventOf(c) && Timely(c.at, [EventOf(c)][1..]);
  }

  // ---- whole runs ---------------------------------------------------------------------------------

  lemma {:induction false} FromEarlier(earlier: int, start: int, calls: seq<Call>)
    requires earlier <= start && InOrder(start, calls)
    ensures InOrder(earlier, calls)
  {
  }

  ghost function Run64(m: Meter, calls: seq<Call>): Machine
    requires m.Valid() && InOrder(m.start, calls)
    decreases |calls|
  {
    if calls == [] then Running(m) else
    var next := Step64(m, calls[0]);
    if next.Fault? then Fault else
    FromEarlier(next.m.start, calls[0].at, calls[1..]);
    Run64(next.m, calls[1..])
  }

  /** The unbounded meter after the same calls. */
  ghost function Exactly(m: Meter, calls: seq<Call>): (r: Meter)
    requires m.Valid() && InOrder(m.start, calls)
    ensures r.Valid()
  {
    OrderedTimely(m.start, calls);
    Run(m, EventsOf(calls))
  }

  lemma Later(m: Meter, calls: seq<Call>)
    requires m.Valid() && InOrder(m.start, calls) && calls != []
    ensures var next := Step(m, EventOf(calls[0]));
      && next.Valid() && InOrder(next.start, calls[1..]) && Exactly(m, calls) == Exactly(next, calls[1..])
  {
    OneTimely(m, calls[0]);
    StepValid(m, EventOf(calls[0]));
    FromEarlier(Step(m, EventOf(calls[0])).start, calls[0].at, calls[1..]);
    OrderedTimely(m.start, calls);
    OrderedTimely(Step(m, EventOf(calls[0])).start, calls[1..]);
    assert EventsOf(calls)[1..] == EventsOf(calls[1..]);
  }

  ghost predicate AllFit(m: Meter, calls: seq<Call>)
    requires m.Valid() && InOrder(m.start, calls)
    decreases |calls|
  {
    calls != [] ==>
      && StepFits(m, calls[0])
      && (Later(m, calls); AllFit(Step(m, EventOf(calls[0])), calls[1..]))
  }

  /** A run in 64 bits computes what the unbounded meter does if and only if every step's products and sums
      fit, the raw terms of each change of rate included; otherwise it faults. */
  lemma {:induction false} Run64Exact(m: Meter, calls: seq<Call>)
    requires m.Valid() && InOrder(m.start, calls) && MeterFits(m) && CallsFit(calls)
    ensures Run64(m, calls) == if AllFit(m, calls) then Running(Exactly(m, calls)) else Fault
    ensures AllFit(m, calls) ==> MeterFits(Exactly(m, calls))
    decreases |calls|
  {
    if calls == [] {
      OrderedTimely(m.start, calls);
    } else {
      Later(m, calls);
      assert CallFits(calls[0]) && CallsFit(calls[1..]);
      Step64Exact(m, calls[0]);
      if StepFits(m, calls[0]) {
        Run64Exact(Step(m, EventOf(calls[0])), calls[1..]);
      }
    }
  }

  ghost function Ends(m: Meter, calls: seq<Call>): int {
    if calls == [] then m.start else calls[|calls| - 1].at
  }

  lemma {:induction false} EndOfEvents(m: Meter, calls: seq<Call>)
    ensures |EventsOf(calls)| == |calls|
    ensures forall i :: 0 <= i < |calls| ==> EventsOf(calls)[i] == EventOf(calls[i])
    ensures End(m, EventsOf(calls)) == Ends(m, calls)
    decreases |calls|
  {
    if calls != [] {
      EndOfEvents(m, calls[1..]);
    }
  }

  /** The clock without rounding that a run is compared with, and what it may fall behind it. */
  ghost function IdealOf(m: Meter, calls: seq<Call>): Ideal
    requires m.Valid() && InOrder(m.start, calls)
  {
    OrderedTimely(m.start, calls);
    IdealRun(Ideal(m.Value(), m.start, m.Rate(), m.paused), m.start, EventsOf(calls))
  }

  ghost function LossBound(m: Meter, calls: seq<Call>): real
    requires m.Valid() && InOrder(m.start, calls)
  {
    OrderedTimely(m.start, calls);
    RerateBound(m.start, EventsOf(calls))
  }

  /** So the drift bound is a fact about the 64-bit timeline exactly as long as it has not faulted. */
  lemma Drift64(m: Meter, calls: seq<Call>)
    requires m.Valid() && InOrder(m.start, calls) && MeterFits(m) && CallsFit(calls)
    ensures Run64(m, calls).Running? <==> AllFit(m, calls)
    ensures AllFit(m, calls) ==>
      var r, at := Run64(m, calls).m, Ends(m, calls);
      && r.Valid() && r.start <= at
      && 0.0 <= IdealOf(m, calls).Total(at) - r.Bank(at).Value() <= LossBound(m, calls)
  {
    Run64Exact(m, calls);
    OrderedTimely(m.start, calls);
    EndOfEvents(m, calls);
    DriftBound(m, EventsOf(calls), Ends(m, calls));
  }

  /** And so is the bound on the ticks a caller reads: after a run that has not faulted, a reading either
      overflows, exactly when the clock runs and banking there would, or keeps the bound. */
  lemma NowDrift64(m: Meter, calls: seq<Call>, at: int)
    requires m.Valid() && InOrder(m.start, calls) && MeterFits(m) && CallsFit(calls) && Ends(m, calls) <= at
    requires AllFit(m, calls)
    ensures Run64(m, calls).Running?
    ensures var r := Run64(m, calls).m;
      && r.Valid() && r.start <= at && (Now64(r, at).Value? <==> r.paused || BankFits(r, at))
      && (Now64(r, at).Value? ==>
            Now64(r, at).n as real <= IdealOf(m, calls).Total(at) < Now64(r, at).n as real + 1.0 + LossBound(m, calls))
  {
    Run64Exact(m, calls);
    OrderedTimely(m.start, calls);
    EndOfEvents(m, calls);
    NowDriftBound(m, EventsOf(calls), at);
    Now64Exact(Exactly(m, calls), at);
  }

  // ---- what of the settings is enough ---------------------------------------------------------------

  /** For each rate of the run (den - 1) * (num + 1) fits, and for each change of rate both raw terms and
      (den - 1) * newDen. */
  ghost predicate SettingsInRange(num: int, den: int, calls: seq<Call>)
    requires num > 0 && den > 0
    decreases |calls|
  {
    && Fits((den - 1) * (num + 1))
    && (calls != [] ==>
          var c := calls[0];
          if c.Setting? then
            && Fits(c.ticks * c.speedNum) && Fits(c.sourceRate * c.speedDen) && Fits((den - 1) * LowestDen(c))
            && SettingsInRange(LowestNum(c), LowestDen(c), calls[1..])
          else SettingsInRange(num, den, calls[1..]))
  }

  lemma StepCounts(m: Meter, c: Call)
    requires m.Valid() && m.start <= c.at
    ensures var next := Step(m, EventOf(c));
      && next.Valid() && m.Bank(c.at).Valid() && m.start <= next.start
      && m.banked <= next.banked && (next == m || next.banked == m.Bank(c.at).banked)
      && (!c.Setting? ==> next.num == m.num && next.den == m.den)
  {
    OneTimely(m, c);
    StepValid(m, EventOf(c));
    BankValid(m, c.at);
    ScaleElapsedExact(Counted(m, c.at), m.remainder, m.num, m.den);
  }

  lemma {:induction false} RunCounts(m: Meter, calls: seq<Call>)
    requires m.Valid() && InOrder(m.start, calls)
    ensures m.banked <= Exactly(m, calls).banked
    decreases |calls|
  {
    if calls == [] {
      OrderedTimely(m.start, calls);
    } else {
      Later(m, calls);
      StepCounts(m, calls[0]);
      RunCounts(Step(m, EventOf(calls[0])), calls[1..]);
    }
  }

  lemma BankInRange(m: Meter, at: int)
    requires m.Valid() && MeterFits(m) && m.start <= at && Fits(at) && 0 <= m.start && 0 <= m.banked
    requires Fits((m.den - 1) * (m.num + 1)) && Fits(m.Bank(at).banked)
    ensures m.Bank(at).Valid() && BankFits(m, at)
  {
    BankValid(m, at);
    var c := Counted(m, at);
    ScaleElapsedExact(c, m.remainder, m.num, m.den);
    Bounds(c, m.den, m.num);
    LargestPart(c % m.den, m.remainder, m.num, m.den);
  }

  lemma RescaleInRange(remainder: nat, den: nat, newDen: nat)
    requires remainder < den && Fits((den - 1) * newDen)
    ensures Fits(remainder * newDen)
  {
    MulMonotone(remainder, den - 1, newDen);
    MulMonotone(0, remainder, newDen);
  }

  lemma StepInRange(m: Meter, c: Call, last: int)
    requires m.Valid() && MeterFits(m) && m.start <= c.at && CallFits(c) && 0 <= m.start && 0 <= m.banked
    requires Fits((m.den - 1) * (m.num + 1))
    requires c.Setting? ==>
      Fits(c.ticks * c.speedNum) && Fits(c.sourceRate * c.speedDen) && Fits((m.den - 1) * LowestDen(c))
    requires Step(m, EventOf(c)).banked <= last && Fits(last)
    ensures StepFits(m, c)
  {
    StepCounts(m, c);
    if Step(m, EventOf(c)) != m || c.Banking? || c.Setting? {
      BankInRange(m, c.at);
    }
    if c.Setting? {
      RescaleInRange(m.Bank(c.at).remainder, m.den, LowestDen(c));
    }
  }

  /** A run whose settings are in range and whose final count fits never faults, however long it runs. */
  lemma {:induction false} RatesSuffice(m: Meter, calls: seq<Call>)
    requires m.Valid() && InOrder(m.start, calls) && MeterFits(m) && CallsFit(calls)
    requires 0 <= m.start && 0 <= m.banked && Fits(Exactly(m, calls).banked) && SettingsInRange(m.num, m.den, calls)
    ensures AllFit(m, calls) && Run64(m, calls) == Running(Exactly(m, calls))
    decreases |calls|
  {
    Run64Exact(m, calls);
    if calls != [] {
      var c := calls[0];
      Later(m, calls);
      StepCounts(m, c);
      RunCounts(Step(m, EventOf(c)), calls[1..]);
      StepInRange(m, c, Exactly(m, calls).banked);
      Step64Exact(m, c);
      RatesSuffice(Step(m, EventOf(c)), calls[1..]);
    }
  }

  const ROOT64: int := 3_037_000_499

  /** Raw terms whose squares fit. */
  ghost predicate SmallTerms(calls: seq<Call>) {
    forall c <- calls :: c.Setting? ==> c.ticks * c.speedNum <= ROOT64 && c.sourceRate * c.speedDen <= ROOT64
  }

  lemma SmallProduct(a: nat, b: nat)
    requires a <= ROOT64 && b <= ROOT64
    ensures Fits(a * b) && (a > 0 ==> Fits((a - 1) * (b + 1)))
  {
    MulMonotone(a, ROOT64, b);
    MulMonotone(b, ROOT64, ROOT64);
    if a > 0 {
      MulMonotone(a - 1, ROOT64 - 1, b + 1);
      MulMonotone(b + 1, ROOT64 + 1, ROOT64 - 1);
    }
  }

  lemma LowestBelowRaw(c: Call)
    requires c.Setting?
    ensures LowestNum(c) <= c.ticks * c.speedNum && LowestDen(c) <= c.sourceRate * c.speedDen
  {
    PositiveProduct(c.ticks, c.speedNum);
    PositiveProduct(c.sourceRate, c.speedDen);
    var rawNum, rawDen := c.ticks * c.speedNum, c.sourceRate * c.speedDen;
    Bounds(rawNum, Gcd(rawNum, rawDen), 0);
    Bounds(rawDen, Gcd(rawNum, rawDen), 0);
  }

  /** It is enough that every tick rate times speed numerator, and every source rate times speed denominator,
      is at most ROOT64; on a microsecond clock the second holds of speeds in thousandths. */
  lemma {:induction false} SmallTermsInRange(num: nat, den: nat, calls: seq<Call>)
    requires 0 < num <= ROOT64 && 0 < den <= ROOT64 && SmallTerms(calls)
    ensures SettingsInRange(num, den, calls)
    decreases |calls|
  {
    SmallProduct(den, num);
    if calls != [] {
      var c := calls[0];
      assert SmallTerms(calls[1..]);
      if c.Setting? {
        LowestBelowRaw(c);
        SmallProduct(den - 1, LowestDen(c));
        SmallTermsInRange(LowestNum(c), LowestDen(c), calls[1..]);
      } else {
        SmallTermsInRange(num, den, calls[1..]);
      }
    }
  }

  // ---- ordinary and large settings that fault ---------------------------------------------------------

  const FAST := Meter(0, 0, 0, 3_703_701, 50_000_000_000, false)

  lemma FastBanked()
    ensures FAST.Bank(13_000) == FAST.(start := 13_000, remainder := 48_148_113_000)
  {
    QuotientUnique(13_000, 50_000_000_000, 0, 13_000);
    QuotientUnique(48_148_113_000, 50_000_000_000, 0, 48_148_113_000);
  }

  lemma LargePart(part: int, den: int)
    requires part == 48_148_113_000 && den == 50_000_000_000
    ensures part * den == 2_407_405_650_000_000_000_000 && part * den / den == part
  {
    SameProduct(part, 48_148_113_000, den);
    QuotientUnique(part * den, den, part, 0);
  }

  lemma FastRerated(b: Meter)
    requires b == FAST.(start := 13_000, remainder := 48_148_113_000)
    ensures b.Valid() && !Fits(b.remainder * 50_000_000_000)
    ensures b.Rerate(1_037_037, 50_000_000_000) == Meter(13_000, 0, 48_148_113_000, 1_037_037, 50_000_000_000, false)
  {
    LargePart(b.remainder, 50_000_000_000);
  }

  lemma OneCall(m: Meter, c: Call)
    requires m.Valid() && MeterFits(m) && m.start <= c.at && CallFits(c)
    ensures InOrder(m.start, [c]) && CallsFit([c])
    ensures Run64(m, [c]) == (if StepFits(m, c) then Running(Step(m, EventOf(c))) else Fault)
    ensures Exactly(m, [c]) == Step(m, EventOf(c))
  {
    assert [c][0] == c && [c][1..] == [];
    Later(m, [c]);
    Step64Exact(m, c);
    Run64Exact(m, [c]);
    var next := Step(m, EventOf(c));
    OrderedTimely(next.start, []);
    assert Exactly(next, []) == next;
  }

  /** The ordinary settings of RescaleOverflows: after one change of speed the run has faulted, while the
      unbounded meter still holds its part of a tick. */
  lemma SpeedChangeFaults()
    ensures var change := Setting(13_000, 60, 345_679, 1_000_000, 1_000_000);
      && InOrder(0, [change]) && Run64(FAST, [change]) == Fault
      && Exactly(FAST, [change]) == Meter(13_000, 0, 48_148_113_000, 1_037_037, 50_000_000_000, false)
  {
    var change := Setting(13_000, 60, 345_679, 1_000_000, 1_000_000);
    SecondTerms();
    assert LowestNum(change) == 1_037_037 && LowestDen(change) == 50_000_000_000;
    FastBanked();
    FastRerated(FAST.Bank(13_000));
    OneCall(FAST, change);
  }

  const PLAIN := Meter(0, 0, 0, 10_000_000, 1, false)

  lemma LargeTerms()
    ensures Gcd(10_000_000_000_000_000_000, 1_000_000) == 1_000_000
  {
    GcdStep(10_000_000_000_000_000_000, 1_000_000, 10_000_000_000_000, 0);
  }

  /** A change of speed whose rescaled remainder fits, and whose exact rate does, while the product of the tick
      rate and the speed does not: 10^13 ticks a second on a microsecond clock, at full speed. */
  lemma RawProductFaults()
    ensures var change := Setting(1, 10_000_000_000_000, 1_000_000, 1_000_000, 1);
      && InOrder(0, [change]) && Run64(PLAIN, [change]) == Fault
      && Exactly(PLAIN, [change]) == Meter(1, 10_000_000, 0, 10_000_000_000_000, 1, false)
      && Rescale64(PLAIN.Bank(1).remainder, PLAIN.den, 1) == Value(0)
  {
    var change := Setting(1, 10_000_000_000_000, 1_000_000, 1_000_000, 1);
    LargeTerms();
    assert LowestNum(change) == 10_000_000_000_000 && LowestDen(change) == 1;
    assert PLAIN.Bank(1) == Meter(1, 10_000_000, 0, 10_000_000, 1, false);
    OneCall(PLAIN, change);
  }
}
