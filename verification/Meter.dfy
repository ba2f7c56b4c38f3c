/** The bookkeeping of one timeline as a value: whole ticks banked so far, the part of a tick left over,
    and the exact rate. The methods of Timelines.Timeline are proved against these functions; here they
    are compared with an ideal clock that integrates the rate in real numbers. */
module Meters {
  import opened Rational

  datatype Meter = Meter(start: int, banked: int, remainder: int, num: int, den: int, paused: bool)
  {
    ghost predicate Valid() {
      num > 0 && den > 0 && 0 <= remainder < den
    }

    /** Ticks counted when the source shows at. */
    function Now(at: int): int
      requires Valid() && start <= at
    {
      if paused then banked else banked + ScaleElapsed(at - start, remainder, num, den).ticks
    }

    function Bank(at: int): Meter
      requires Valid() && start <= at
    {
      var scaled := ScaleElapsed(if paused then 0 else at - start, remainder, num, den);
      this.(banked := banked + scaled.ticks, remainder := scaled.remainder, start := at)
    }

    function Rerate(newNum: int, newDen: int): Meter
      requires Valid()
    {
      this.(num := newNum, den := newDen, remainder := remainder * newDen / den)
    }

    function Pause(at: int): Meter
      requires Valid() && start <= at
    {
      if paused then this else Bank(at).(paused := true)
    }

    function Unpause(at: int): Meter
      requires Valid() && start <= at
    {
      if !paused then this else Bank(at).(paused := false)
    }

    /** Ticks counted, as an exact rational. */
    ghost function Value(): real
      requires den > 0
    {
      banked as real + remainder as real / den as real
    }

    ghost function Rate(): real
      requires den > 0
    {
      num as real / den as real
    }
  }

  // ---- no call moves the clock ------------------------------------------------------------------

  lemma BankValid(m: Meter, at: int)
    requires m.Valid() && m.start <= at
    ensures m.Bank(at).Valid()
    ensures m.paused ==> m.Bank(at) == m.(start := at)
  {
    ScaleElapsedExact(if m.paused then 0 else at - m.start, m.remainder, m.num, m.den);
    ScaleNothing(m.remainder, m.num, m.den);
  }

  /** Banking is invisible: at the instant of the bank and at every later one the clock reads the same. */
  lemma BankInvisible(m: Meter, at: int, later: int)
    requires m.Valid() && m.start <= at <= later
    ensures m.Bank(at).Valid() && m.Bank(at).Now(later) == m.Now(later)
  {
    BankValid(m, at);
    if !m.paused {
      SplitElapsed(at - m.start, later - at, m.remainder, m.num, m.den);
    }
  }

  /** Scaling in two parts, the second from the first one's remainder, counts the same ticks. */
  lemma SplitElapsed(e1: nat, e2: nat, remainder: nat, num: nat, den: nat)
    requires den > 0
    ensures var first := ScaleElapsed(e1, remainder, num, den);
            && 0 <= first.remainder
            && ScaleElapsed(e1 + e2, remainder, num, den).ticks
               == first.ticks + ScaleElapsed(e2, first.remainder, num, den).ticks
  {
    ScaleElapsedExact(e1, remainder, num, den);
    var first := ScaleElapsed(e1, remainder, num, den);
    ScaleElapsedExact(e2, first.remainder, num, den);
    var rest := ScaleElapsed(e2, first.remainder, num, den);
    ScaleElapsedExact(e1 + e2, remainder, num, den);
    assert (e1 + e2) * num + remainder == (first.ticks + rest.ticks) * den + rest.remainder by {
      Distribute(e1, e2, num);
      Distribute(first.ticks, rest.ticks, den);
    }
    QuotientUnique((e1 + e2) * num + remainder, den, first.ticks + rest.ticks, rest.remainder);
  }

  /** Right after a bank the clock shows exactly what it has banked. */
  lemma FreshlyBanked(m: Meter)
    requires m.Valid()
    ensures m.Now(m.start) == m.banked
  {
    ScaleNothing(m.remainder, m.num, m.den);
  }

  /** A change of rate right after a bank keeps the remainder below one tick and the reading unchanged. */
  lemma RerateKeepsNow(m: Meter, newNum: int, newDen: int)
    requires m.Valid() && newNum > 0 && newDen > 0
    ensures m.Rerate(newNum, newDen).Valid()
    ensures m.Rerate(newNum, newDen).Now(m.start) == m.Now(m.start) == m.banked
  {
    RescaledRemainder(m.remainder, m.den, newDen);
    FreshlyBanked(m);
    FreshlyBanked(m.Rerate(newNum, newDen));
  }

  /** The two together, at any later source time. */
  lemma BankAndRerateKeepNow(m: Meter, at: int, newNum: int, newDen: int)
    requires m.Valid() && m.start <= at && newNum > 0 && newDen > 0
    ensures m.Bank(at).Valid() && m.Bank(at).Rerate(newNum, newDen).Valid()
    ensures m.Bank(at).Rerate(newNum, newDen).start == at
    ensures m.Bank(at).Rerate(newNum, newDen).Now(at) == m.Now(at)
  {
    BankInvisible(m, at, at);
    RerateKeepsNow(m.Bank(at), newNum, newDen);
  }

  /** Pausing and unpausing keep the reading at that instant, and a paused clock keeps it for good. */
  lemma PauseKeepsNow(m: Meter, at: int, later: int)
    requires m.Valid() && m.start <= at <= later
    ensures m.Pause(at).Valid() && m.Pause(at).Now(later) == m.Now(at)
    ensures m.Unpause(at).Valid() && m.Unpause(at).Now(at) == m.Now(at)
  {
    BankInvisible(m, at, at);
    FreshlyBanked(m.Bank(at));
    FreshlyBanked(m.Bank(at).(paused := false));
  }

  lemma NowMonotonic(m: Meter, at: int, later: int)
    requires m.Valid() && m.start <= at <= later
    ensures m.Now(at) <= m.Now(later)
  {
    ScaleElapsedMonotonic(at - m.start, later - m.start, m.remainder, m.num, m.den);
  }

  // ---- drift over whole runs --------------------------------------------------------------------

  datatype Event =
    | Banked(at: int)
    | Rerated(at: int, num: int, den: int)
    | Paused(at: int)
    | Unpaused(at: int)

  ghost predicate Timely(start: int, events: seq<Event>)
    decreases |events|
  {
    events != [] ==>
      && start <= events[0].at
      && (events[0].Rerated? ==> events[0].num > 0 && events[0].den > 0)
      && Timely(events[0].at, events[1..])
  }

  function Step(m: Meter, e: Event): Meter
    requires m.Valid() && m.start <= e.at
  {
    match e
    case Banked(at) => m.Bank(at)
    case Rerated(at, num, den) => m.Bank(at).Rerate(num, den)
    case Paused(at) => m.Pause(at)
    case Unpaused(at) => m.Unpause(at)
  }

  lemma StepValid(m: Meter, e: Event)
    requires m.Valid() && Timely(m.start, [e])
    ensures Step(m, e).Valid()
    ensures m.start <= Step(m, e).start <= e.at
  {
    assert [e][0] == e;
    BankValid(m, e.at);
    PauseKeepsNow(m, e.at, e.at);
    if e.Rerated? {
      RerateKeepsNow(m.Bank(e.at), e.num, e.den);
    }
  }

  lemma {:induction false} TimelyFromEarlier(earlier: int, start: int, events: seq<Event>)
    requires earlier <= start && Timely(start, events)
    ensures Timely(earlier, events)
  {
  }

  /** The meter after a run of events, by the time the source shows. */
  ghost function Run(m: Meter, events: seq<Event>): (r: Meter)
    requires m.Valid() && Timely(m.start, events)
    ensures r.Valid() && r.start <= End(m, events)
    decreases |events|
  {
    if events == [] then m else
    assert Timely(m.start, [events[0]]) by { assert [events[0]][0] == events[0]; }
    StepValid(m, events[0]);
    TimelyFromEarlier(Step(m, events[0]).start, events[0].at, events[1..]);
    Run(Step(m, events[0]), events[1..])
  }

  /** A clock without rounding: the integral of the rate over the unpaused source time. */
  datatype Ideal = Ideal(total: real, since: int, rate: real, paused: bool)
  {
    ghost function Total(at: int): real {
      if paused then total else total + (at - since) as real * rate
    }
  }

  ghost function IdealStep(i: Ideal, e: Event): Ideal
    requires e.Rerated? ==> e.den > 0
  {
    match e
    case Banked(at) => i
    case Rerated(at, num, den) => Ideal(i.Total(at), at, num as real / den as real, i.paused)
    case Paused(at) => Ideal(i.Total(at), at, i.rate, true)
    case Unpaused(at) => Ideal(i.Total(at), at, i.rate, false)
  }

  ghost function IdealRun(i: Ideal, start: int, events: seq<Event>): Ideal
    requires Timely(start, events)
    decreases |events|
  {
    if events == [] then i else IdealRun(IdealStep(i, events[0]), events[0].at, events[1..])
  }

  /** Sum of 1/newDen over the rate changes of a run. */
  ghost function RerateBound(start: int, events: seq<Event>): (r: real)
    requires Timely(start, events)
    ensures r >= 0.0
    ensures (forall k :: 0 <= k < |events| ==> !events[k].Rerated?) ==> r == 0.0
    decreases |events|
  {
    if events == [] then 0.0 else
    var rest := RerateBound(events[0].at, events[1..]);
    assert forall k :: 0 <= k < |events[1..]| ==> events[1..][k] == events[k + 1];
    if events[0].Rerated? then PositiveInverse(events[0].den); 1.0 / events[0].den as real + rest else rest
  }

  lemma PositiveInverse(den: int)
    requires den > 0
    ensures 1.0 / den as real > 0.0
  {
  }

  lemma RealQuotient(total: int, ticks: int, remainder: int, den: int)
    requires den > 0 && total == ticks * den + remainder
    ensures total as real / den as real == ticks as real + remainder as real / den as real
  {
    assert total as real == ticks as real * den as real + remainder as real;
    var d := den as real;
    assert (ticks as real * d + remainder as real) / d == ticks as real * d / d + remainder as real / d;
  }

  lemma RealSum(a: int, num: int, remainder: int, den: int)
    requires den > 0
    ensures (a * num + remainder) as real / den as real
         == a as real * (num as real / den as real) + remainder as real / den as real
  {
    assert (a * num + remainder) as real == a as real * num as real + remainder as real;
    RealDistribute(a as real, num as real, remainder as real, den as real);
  }

  lemma RealDistribute(a: real, n: real, r: real, d: real)
    requires d > 0.0
    ensures (a * n + r) / d == a * (n / d) + r / d
  {
  }

  /** Banking loses nothing: the value grows by exactly elapsed times rate. */
  lemma BankExact(m: Meter, at: int)
    requires m.Valid() && m.start <= at
    ensures m.Bank(at).Valid()
    ensures m.Bank(at).Value() == m.Value() + (if m.paused then 0.0 else (at - m.start) as real * m.Rate())
  {
    BankValid(m, at);
    if !m.paused {
      var e := at - m.start;
      ScaleElapsedExact(e, m.remainder, m.num, m.den);
      var s := ScaleElapsed(e, m.remainder, m.num, m.den);
      RealQuotient(e * m.num + m.remainder, s.ticks, s.remainder, m.den);
      RealSum(e, m.num, m.remainder, m.den);
    }
  }

  /** A rate change never gains and loses less than one unit of the new denominator. */
  lemma RerateLoss(m: Meter, num: int, den: int)
    requires m.Valid() && num > 0 && den > 0
    ensures var r := m.Rerate(num, den);
            r.Value() <= m.Value() < r.Value() + 1.0 / den as real
  {
    var n := m.remainder * den;
    FloorQuotient(n, m.den);
    RealProduct(m.remainder, den);
    RoundedDown((n / m.den) as real, n as real, m.remainder as real, den as real, m.den as real);
  }

  lemma FloorQuotient(n: int, den: int)
    requires den > 0
    ensures (n / den) as real <= n as real / den as real < (n / den) as real + 1.0
  {
    RealQuotient(n, n / den, n % den, den);
    FractionOfTick(n % den, den);
  }

  lemma RealProduct(a: int, b: int)
    ensures (a * b) as real == a as real * b as real
  {
  }

  /** If q is n/e rounded down and n is x*d, then q/d falls short of x/e by less than 1/d. */
  lemma RoundedDown(q: real, n: real, x: real, d: real, e: real)
    requires d > 0.0 && e > 0.0 && n == x * d && q <= n / e < q + 1.0
    ensures q / d <= x / e < q / d + 1.0 / d
  {
    DivideBoth(n, x, d, e);
    DivideOrder(q, n / e, d);
    DivideOrderStrict(n / e, q + 1.0, d);
    DivideSum(q, 1.0, d);
  }

  lemma DivideSum(a: real, b: real, d: real)
    requires d > 0.0
    ensures (a + b) / d == a / d + b / d
  {
  }

  lemma FractionOfTick(r: int, den: int)
    requires 0 <= r < den
    ensures 0.0 <= r as real / den as real < 1.0
  {
  }

  lemma DivideBoth(n: real, x: real, d: real, e: real)
    requires d > 0.0 && e > 0.0 && n == x * d
    ensures x / e == (n / e) / d
  {
  }

  lemma DivideOrder(a: real, b: real, d: real)
    requires d > 0.0 && a <= b
    ensures a / d <= b / d
  {
  }

  lemma DivideOrderStrict(a: real, b: real, d: real)
    requires d > 0.0 && a < b
    ensures a / d < b / d
  {
  }

  /** How far the meter is behind the ideal clock: the same rate and pause state, and a shortfall. */
  ghost predicate Behind(m: Meter, i: Ideal, at: int, loss: real)
    requires m.Valid() && m.start <= at
  {
    && m.Rate() == i.rate && m.paused == i.paused && i.since <= at
    && i.Total(at) == m.Bank(at).Value() + loss
    && m.Bank(at).Valid()
  }

  lemma BehindLater(m: Meter, i: Ideal, at: int, later: int, loss: real)
    requires m.Valid() && m.start <= at <= later && Behind(m, i, at, loss)
    ensures Behind(m, i, later, loss)
  {
    BankExact(m, at);
    BankExact(m, later);
    if !m.paused {
      Spread((at - m.start) as real, (later - m.start) as real, (at - i.since) as real, (later - i.since) as real, i.rate);
    }
  }

  lemma Spread(a: real, b: real, c: real, d: real, rate: real)
    requires b - a == d - c
    ensures b * rate - a * rate == d * rate - c * rate
  {
  }

  lemma BehindStep(m: Meter, i: Ideal, e: Event, loss: real) returns (loss': real)
    requires m.Valid() && Timely(m.start, [e]) && Behind(m, i, e.at, loss)
    ensures Step(m, e).Valid() && Step(m, e).start <= e.at
    ensures Behind(Step(m, e), IdealStep(i, e), e.at, loss')
    ensures loss <= loss'
    ensures if e.Rerated? then loss' < loss + 1.0 / e.den as real else loss' == loss
  {
    assert [e][0] == e;
    StepValid(m, e);
    BankExact(m, e.at);
    var b := m.Bank(e.at);
    var after := Step(m, e);
    BankExact(after, e.at);
    loss' := loss;
    match e
    case Rerated(at, num, den) =>
      RerateLoss(b, num, den);
      loss' := loss + (b.Value() - after.Value());
    case Banked(at) =>
      BankValid(b, at);
    case Paused(at) =>
    case Unpaused(at) =>
  }

  lemma {:induction false} BehindRun(m: Meter, i: Ideal, start: int, events: seq<Event>, loss: real) returns (loss': real)
    requires m.Valid() && m.start <= start && Timely(start, events) && Timely(m.start, events)
    requires Behind(m, i, start, loss)
    ensures var end := if events == [] then start else events[|events| - 1].at;
            && Run(m, events).start <= end
            && Behind(Run(m, events), IdealRun(i, start, events), end, loss')
    ensures loss <= loss' <= loss + RerateBound(start, events)
    ensures loss' == loss + RerateBound(start, events) ==> forall k :: 0 <= k < |events| ==> !events[k].Rerated?
    decreases |events|
  {
    if events == [] {
      return loss;
    }
    var e := events[0];
    BehindLater(m, i, start, e.at, loss);
    assert Timely(m.start, [e]) by { assert [e][0] == e; }
    var mid := BehindStep(m, i, e, loss);
    TimelyFromEarlier(Step(m, e).start, e.at, events[1..]);
    loss' := BehindRun(Step(m, e), IdealStep(i, e), e.at, events[1..], mid);
    assert forall k :: 1 <= k < |events| ==> events[k] == events[1..][k - 1];
  }

  ghost function End(m: Meter, events: seq<Event>): int {
    if events == [] then m.start else events[|events| - 1].at
  }

  /** Main result. Whatever sequence of banks, pauses, unpauses and rate changes a timeline goes through,
      at the end (and, by BankInvisible, at every reading) it never runs ahead of the exact integral of its
      rate. It falls behind by less than the sum of 1/newDen over its rate changes, and by nothing at all
      if its rate never changed. */
  lemma DriftBound(m: Meter, events: seq<Event>, at: int)
    requires m.Valid() && Timely(m.start, events) && End(m, events) <= at
    ensures var m' := Run(m, events);
            var ideal := IdealRun(Ideal(m.Value(), m.start, m.Rate(), m.paused), m.start, events);
            var loss := ideal.Total(at) - m'.Bank(at).Value();
            && m'.start <= at
            && 0.0 <= loss <= RerateBound(m.start, events)
            && ((exists k :: 0 <= k < |events| && events[k].Rerated?) ==> loss < RerateBound(m.start, events))
            && ((forall k :: 0 <= k < |events| ==> !events[k].Rerated?) ==> loss == 0.0)
  {
    var ideal := Ideal(m.Value(), m.start, m.Rate(), m.paused);
    BankExact(m, m.start);
    assert Behind(m, ideal, m.start, 0.0);
    var loss := BehindRun(m, ideal, m.start, events, 0.0);
    BehindLater(Run(m, events), IdealRun(ideal, m.start, events), End(m, events), at, loss);
  }

  /** The same bound on the whole ticks a caller reads. */
  lemma NowDriftBound(m: Meter, events: seq<Event>, at: int)
    requires m.Valid() && Timely(m.start, events) && End(m, events) <= at
    ensures var m' := Run(m, events);
            var ideal := IdealRun(Ideal(m.Value(), m.start, m.Rate(), m.paused), m.start, events);
            && m'.start <= at
            && m'.Now(at) as real <= ideal.Total(at) < m'.Now(at) as real + 1.0 + RerateBound(m.start, events)
  {
    DriftBound(m, events, at);
    var m' := Run(m, events);
    BankInvisible(m', at, at);
    FreshlyBanked(m'.Bank(at));
    FractionOfTick(m'.Bank(at).remainder, m'.den);
  }
}
