/** The regime-switch backtest: day by day, flat by the close of every day. */
module RegimeSwitch {
  import opened Options
  import B = Backtest

  /** One bar with its indicators; `None` is a missing value. `breakUp` and `breakDown` say whether the close is
      beyond the highs or lows of the lookback window. */
  datatype Bar = Bar(
    open: real, high: real, low: real, close: real, atr: Option<real>, adx: Option<real>, rsi: Option<real>,
    ema20: Option<real>, ema50: Option<real>, breakUp: bool, breakDown: bool)

  datatype Params = Params(
    adxThreshold: real, atrStop: real, rr: real, rsiLow: real, rsiHigh: real, adaptive: bool, adverse: real)

  const RISK := 0.005
  const MAX_HOLD := 30
  const FIRST := 60

  type Day = seq<Bar>

  datatype Hold = Flat | Held(side: int, entryBar: nat, entry: real, stop: real, target: real, unit: real)

  datatype Sim = Sim(hold: Hold, trades: seq<B.Trade>)

  // -------------------------------------------------------------------- one bar

  predicate Ready(bar: Bar) {
    bar.atr.Some? && bar.adx.Some? && bar.rsi.Some? && bar.ema20.Some? && bar.ema50.Some? && bar.atr.value > 0.0
  }

  function Side(p: Params, bar: Bar): int
    requires Ready(bar)
  {
    var trending := bar.adx.value >= p.adxThreshold;
    if trending && bar.close > bar.ema20.value > bar.ema50.value && bar.breakUp then 1
    else if trending && bar.close < bar.ema20.value < bar.ema50.value && bar.breakDown then -1
    else if p.adaptive && !trending then
      if bar.rsi.value <= p.rsiLow && bar.close < bar.ema20.value then 1
      else if bar.rsi.value >= p.rsiHigh && bar.close > bar.ema20.value then -1
      else 0
    else 0
  }

  /** The position a signal on bar `i` opens on the next bar. */
  function Entry(p: Params, day: Day, i: nat): Hold
    requires i + 1 < |day| && Ready(day[i])
  {
    var side := Side(p, day[i]);
    var entry := day[i + 1].open + side as real * p.adverse;
    var unit := p.atrStop * day[i].atr.value;
    var target := if day[i].adx.value >= p.adxThreshold then entry + side as real * p.rr * unit else day[i].ema20.value;
    Held(side, i + 1, entry, entry - side as real * unit, target, unit)
  }

  /** A signal is taken only if its target lies ahead. */
  predicate Taken(p: Params, day: Day, i: nat)
    requires i + 1 < |day|
  {
    && Ready(day[i]) && Side(p, day[i]) != 0
    && (Entry(p, day, i).target - Entry(p, day, i).entry) * Side(p, day[i]) as real > 0.0
  }

  predicate HitsStop(h: Hold, bar: Bar)
    requires h.Held?
  {
    if h.side == 1 then bar.low <= h.stop else bar.high >= h.stop
  }

  predicate HitsTarget(h: Hold, bar: Bar)
    requires h.Held?
  {
    if h.side == 1 then bar.high >= h.target else bar.low <= h.target
  }

  /** The regime no longer supports the position: momentum is back at the middle of a range. */
  predicate Reverts(p: Params, h: Hold, bar: Bar)
    requires h.Held?
  {
    && p.adaptive && bar.rsi.Some? && bar.adx.Some? && bar.adx.value < p.adxThreshold
    && ((h.side == 1 && bar.rsi.value >= 50.0) || (h.side == -1 && bar.rsi.value <= 50.0))
  }

  function ExitPrice(p: Params, day: Day, h: Hold, i: nat): Option<real>
    requires i + 1 < |day| && h.Held?
  {
    if HitsStop(h, day[i]) then Some(h.stop)
    else if HitsTarget(h, day[i]) then Some(h.target)
    else if i - h.entryBar + 1 >= MAX_HOLD || Reverts(p, h, day[i]) then Some(day[i + 1].open)
    else None
  }

  /** The price at which an open position leaves on the last bar of the day. */
  function ClosingPrice(h: Hold, bar: Bar): real
    requires h.Held?
  {
    if HitsStop(h, bar) then h.stop else if HitsTarget(h, bar) then h.target else bar.close
  }

  function Closed(p: Params, h: Hold, i: nat, raw: real): B.Trade
    requires h.Held? && h.unit != 0.0
  {
    B.Trade(h.side, h.entryBar, i, h.side as real * (raw - h.side as real * p.adverse - h.entry) / h.unit)
  }

  // --------------------------------------------------------------------- one day

  /** An open position comes from a taken signal of the day, and its risk unit is positive. */
  predicate Sound(p: Params, day: Day, h: Hold) {
    h.Held? ==>
      && FIRST < h.entryBar < |day| && h.unit > 0.0
      && Taken(p, day, h.entryBar - 1) && h == Entry(p, day, h.entryBar - 1)
  }

  lemma TakenIsSound(p: Params, day: Day, i: nat)
    requires FIRST <= i && i + 1 < |day| && p.atrStop > 0.0 && Taken(p, day, i)
    ensures Sound(p, day, Entry(p, day, i))
  {
    assert p.atrStop * day[i].atr.value > 0.0;
  }

  function Step(p: Params, day: Day, s: Sim, i: nat): Sim
    requires FIRST <= i && i + 1 < |day| && Sound(p, day, s.hold)
  {
    match s.hold
    case Flat => if Taken(p, day, i) then Sim(Entry(p, day, i), s.trades) else s
    case Held(_, _, _, _, _, _) =>
      var exit := ExitPrice(p, day, s.hold, i);
      if exit.None? then s else Sim(Flat, s.trades + [Closed(p, s.hold, i, exit.value)])
  }

  /** The day after its bars from number 60 up to `n` were processed. */
  function Simulate(p: Params, day: Day, n: nat): (s: Sim)
    requires p.atrStop > 0.0 && FIRST <= n < |day|
    ensures Sound(p, day, s.hold)
  {
    if n == FIRST then Sim(Flat, [])
    else
      var before := Simulate(p, day, n - 1);
      var after := Step(p, day, before, n - 1);
      if before.hold.Flat? && after.hold.Held? then TakenIsSound(p, day, n - 1); after else after
  }

  /** The trades of a day; whatever is open is closed on the last bar. */
  function DayTrades(p: Params, day: Day): seq<B.Trade>
    requires p.atrStop > 0.0
  {
    if |day| <= FIRST + 1 then []
    else
      var s := Simulate(p, day, |day| - 1);
      if s.hold.Flat? then s.trades
      else s.trades + [Closed(p, s.hold, |day| - 1, ClosingPrice(s.hold, day[|day| - 1]))]
  }

  /** The returns of a day; a stop multiple that is not positive allows no trade. */
  function DayReturns(p: Params, day: Day): seq<real> {
    if p.atrStop > 0.0 then B.Returns(DayTrades(p, day)) else []
  }

  /** The returns of all days, one day after the other. */
  function AllReturns(p: Params, days: seq<Day>): seq<real> {
    if days == [] then [] else AllReturns(p, days[..|days| - 1]) + DayReturns(p, days[|days| - 1])
  }

  /** Some bar before bar `n` carries a signal that is taken. */
  ghost predicate Signals(p: Params, day: Day, n: nat) {
    exists i :: FIRST <= i < n && i + 1 < |day| && Taken(p, day, i)
  }

  // ------------------------------------------------------------- what trades look like

  predicate OneAtATime(s: Sim, n: nat) {
    match s.hold
    case Flat => B.InOrder(MAX_HOLD, s.trades, n + 1)
    case Held(_, entryBar, _, _, _, _) =>
      B.InOrder(MAX_HOLD, s.trades, entryBar) && entryBar <= n && n - entryBar < MAX_HOLD
  }

  lemma StepKeepsOrder(p: Params, day: Day, s: Sim, i: nat)
    requires FIRST <= i && i + 1 < |day| && Sound(p, day, s.hold) && OneAtATime(s, i)
    ensures OneAtATime(Step(p, day, s, i), i + 1)
  {
    if s.hold.Held? {
      var exit := ExitPrice(p, day, s.hold, i);
      if exit.Some? { B.OneMoreInOrder(MAX_HOLD, s.trades, Closed(p, s.hold, i, exit.value)); }
    }
  }

  lemma {:induction false} SimulatedInOrder(p: Params, day: Day, n: nat)
    requires p.atrStop > 0.0 && FIRST <= n < |day|
    ensures OneAtATime(Simulate(p, day, n), n)
  {
    if n > FIRST {
      SimulatedInOrder(p, day, n - 1);
      StepKeepsOrder(p, day, Simulate(p, day, n - 1), n - 1);
    }
  }

  /** The trades of a day follow one another, are each held for one to thirty bars, and are all over by its last bar. */
  lemma DayIsFlatByClose(p: Params, day: Day)
    requires p.atrStop > 0.0
    ensures B.InOrder(MAX_HOLD, DayTrades(p, day), |day| + 1)
  {
    if |day| > FIRST + 1 {
      SimulatedInOrder(p, day, |day| - 1);
      var s := Simulate(p, day, |day| - 1);
      if s.hold.Held? {
        B.OneMoreInOrder(MAX_HOLD, s.trades, Closed(p, s.hold, |day| - 1, ClosingPrice(s.hold, day[|day| - 1])));
      }
    }
  }

  /** No bar from the fill up to bar `n` closes the position. */
  ghost predicate StaysOpen(p: Params, day: Day, h: Hold, n: nat)
    requires h.Held? && n < |day|
  {
    forall i :: h.entryBar <= i < n ==> ExitPrice(p, day, h, i).None?
  }

  /** The price a position leaves at on bar `i`: its exit, or the close of the day. */
  function LeavesAt(p: Params, day: Day, h: Hold, i: nat): Option<real>
    requires h.Held? && i < |day|
  {
    if i + 1 < |day| then ExitPrice(p, day, h, i) else Some(ClosingPrice(h, day[i]))
  }

  /** A trade starts on the bar after a taken signal, leaves on the first bar that closes it, and a stopped one
      loses its risk and the cost of one side. */
  ghost predicate Explained(p: Params, day: Day, t: B.Trade) {
    && FIRST < t.entryBar <= t.exitBar < |day| && Taken(p, day, t.entryBar - 1)
    && var h := Entry(p, day, t.entryBar - 1);
       && h.unit > 0.0 && StaysOpen(p, day, h, t.exitBar)
       && LeavesAt(p, day, h, t.exitBar).Some?
       && t == Closed(p, h, t.exitBar, LeavesAt(p, day, h, t.exitBar).value)
       && (HitsStop(h, day[t.exitBar]) ==> t.r == -1.0 - p.adverse / h.unit)
  }

  lemma StoppedReturn(p: Params, h: Hold, i: nat)
    requires h.Held? && h.side in {-1, 1} && h.unit > 0.0 && h.stop == h.entry - h.side as real * h.unit
    ensures Closed(p, h, i, h.stop).r == -1.0 - p.adverse / h.unit
  {
    B.StopAlgebra(h.side as real, h.unit, p.adverse, h.entry);
  }

  lemma EntryLevels(p: Params, day: Day, i: nat)
    requires i + 1 < |day| && Taken(p, day, i)
    ensures var h := Entry(p, day, i); h.Held? && h.side in {-1, 1} && h.stop == h.entry - h.side as real * h.unit
  {
  }

  lemma LeavingIsExplained(p: Params, day: Day, h: Hold, i: nat)
    requires h.Held? && Sound(p, day, h) && h.entryBar <= i < |day| && StaysOpen(p, day, h, i)
             && LeavesAt(p, day, h, i).Some?
    ensures Explained(p, day, Closed(p, h, i, LeavesAt(p, day, h, i).value))
  {
    EntryLevels(p, day, h.entryBar - 1);
    StoppedReturn(p, h, i);
  }

  lemma {:induction false} OpenStaysOpen(p: Params, day: Day, n: nat)
    requires p.atrStop > 0.0 && FIRST <= n < |day|
    ensures var h := Simulate(p, day, n).hold; h.Held? ==> h.entryBar <= n && StaysOpen(p, day, h, n)
  {
    if n > FIRST { OpenStaysOpen(p, day, n - 1); }
  }

  lemma {:induction false} SimulatedExplained(p: Params, day: Day, n: nat, k: nat)
    requires p.atrStop > 0.0 && FIRST <= n < |day| && k < |Simulate(p, day, n).trades|
    ensures Explained(p, day, Simulate(p, day, n).trades[k])
  {
    var s := Simulate(p, day, n - 1);
    if k < |s.trades| {
      SimulatedExplained(p, day, n - 1, k);
    } else {
      OpenStaysOpen(p, day, n - 1);
      LeavingIsExplained(p, day, s.hold, n - 1);
    }
  }

  /** Every trade of a day is explained by the bars of that day. */
  lemma DayTradesExplained(p: Params, day: Day, k: nat)
    requires p.atrStop > 0.0 && k < |DayTrades(p, day)|
    ensures Explained(p, day, DayTrades(p, day)[k])
  {
    var s := Simulate(p, day, |day| - 1);
    if k < |s.trades| {
      SimulatedExplained(p, day, |day| - 1, k);
    } else {
      OpenStaysOpen(p, day, |day| - 1);
      LeavingIsExplained(p, day, s.hold, |day| - 1);
    }
  }

  // ------------------------------------------------- trades in prices and bars alone

  /** A breakout with the trend, or in a quiet range a return from the lower end. */
  predicate BuySignal(p: Params, bar: Bar)
    requires Ready(bar)
  {
    if p.adxThreshold <= bar.adx.value then
      bar.ema20.value < bar.close && bar.ema50.value < bar.ema20.value && bar.breakUp
    else p.adaptive && bar.rsi.value <= p.rsiLow && bar.close < bar.ema20.value
  }

  predicate SellSignal(p: Params, bar: Bar)
    requires Ready(bar)
  {
    if p.adxThreshold <= bar.adx.value then
      bar.close < bar.ema20.value && bar.ema20.value < bar.ema50.value && bar.breakDown
    else p.adaptive && p.rsiHigh <= bar.rsi.value && bar.ema20.value < bar.close
  }

  lemma SideExactly(p: Params, bar: Bar)
    requires Ready(bar)
    ensures Side(p, bar) == 1 <==> BuySignal(p, bar)
    ensures Side(p, bar) == -1 <==> SellSignal(p, bar)
    ensures Side(p, bar) in {-1, 0, 1}
  {
  }

  /** The signal bar, the risk at the multiple of its range, and the levels around the fill at the next open, which is
      worse by the cost: with the trend the target is at the reward ratio, in a range it is the middle. */
  predicate LevelsAsTold(p: Params, day: Day, t: B.Trade, entry: real, d: real, stop: real, target: real)
    requires 0 < t.entryBar < |day| && Ready(day[t.entryBar - 1])
  {
    var bar := day[t.entryBar - 1];
    && ((t.side == 1 && BuySignal(p, bar) && entry < target) || (t.side == -1 && SellSignal(p, bar) && target < entry))
    && d == p.atrStop * bar.atr.value && d > 0.0
    && entry == day[t.entryBar].open + t.side as real * p.adverse && stop == entry - t.side as real * d
    && target == if p.adxThreshold <= bar.adx.value then entry + t.side as real * p.rr * d else bar.ema20.value
  }

  /** Back at the middle of a range, where an adaptive position gives up. */
  predicate BackAtMiddle(p: Params, side: int, bar: Bar) {
    && p.adaptive && bar.adx.Some? && bar.rsi.Some? && bar.adx.value < p.adxThreshold
    && (if side == 1 then 50.0 <= bar.rsi.value else bar.rsi.value <= 50.0)
  }

  ghost predicate StaysOn(p: Params, day: Day, t: B.Trade, stop: real, target: real)
    requires 0 <= t.entryBar <= t.exitBar < |day|
  {
    forall i :: t.entryBar <= i < t.exitBar ==>
      && !B.StopTouched(t.side, stop, BarOf(day[i])) && !B.TargetTouched(t.side, target, BarOf(day[i]))
      && i - t.entryBar + 1 < 30 && !BackAtMiddle(p, t.side, day[i])
  }

  /** The highs and lows of the bar. */
  function BarOf(bar: Bar): B.Bar {
    B.Bar(0, bar.open, bar.high, bar.low, 0, None)
  }

  /** The price the exit bar gives: a level, the next open after thirty bars or at the middle of a range, or the close
      of the day. */
  predicate LeavesAsTold(p: Params, day: Day, t: B.Trade, stop: real, target: real, raw: real)
    requires 0 <= t.entryBar <= t.exitBar < |day|
  {
    var last := day[t.exitBar];
    if B.StopTouched(t.side, stop, BarOf(last)) then raw == stop
    else if B.TargetTouched(t.side, target, BarOf(last)) then raw == target
    else if t.exitBar + 1 == |day| then raw == last.close
    else (30 <= t.exitBar - t.entryBar + 1 || BackAtMiddle(p, t.side, last)) && raw == day[t.exitBar + 1].open
  }

  predicate EarnsAsTold(p: Params, t: B.Trade, entry: real, d: real, raw: real)
    requires d > 0.0
  {
    t.r == t.side as real * (raw - t.side as real * p.adverse - entry) / d
  }

  ghost predicate ToldByDay(p: Params, day: Day, t: B.Trade) {
    && 60 < t.entryBar <= t.exitBar < |day| && Ready(day[t.entryBar - 1])
    && exists entry, d, stop, target, raw ::
         && LevelsAsTold(p, day, t, entry, d, stop, target) && StaysOn(p, day, t, stop, target)
         && LeavesAsTold(p, day, t, stop, target, raw) && EarnsAsTold(p, t, entry, d, raw)
  }

  lemma LevelsTouched(h: Hold, bar: Bar)
    requires h.Held? && h.side in {-1, 1}
    ensures HitsStop(h, bar) <==> B.StopTouched(h.side, h.stop, BarOf(bar))
    ensures HitsTarget(h, bar) <==> B.TargetTouched(h.side, h.target, BarOf(bar))
  {
  }

  lemma RevertsAtMiddle(p: Params, h: Hold, bar: Bar)
    requires h.Held? && h.side in {-1, 1}
    ensures Reverts(p, h, bar) <==> BackAtMiddle(p, h.side, bar)
  {
  }

  lemma OpenIsOn(p: Params, day: Day, t: B.Trade, h: Hold)
    requires h.Held? && h.side == t.side && h.side in {-1, 1} && h.entryBar == t.entryBar
    requires 0 <= t.entryBar <= t.exitBar < |day| && StaysOpen(p, day, h, t.exitBar)
    ensures StaysOn(p, day, t, h.stop, h.target)
  {
    forall i | t.entryBar <= i < t.exitBar
      ensures && !B.StopTouched(t.side, h.stop, BarOf(day[i])) && !B.TargetTouched(t.side, h.target, BarOf(day[i]))
              && i - t.entryBar + 1 < 30 && !BackAtMiddle(p, t.side, day[i])
    {
      LevelsTouched(h, day[i]);
      RevertsAtMiddle(p, h, day[i]);
      assert ExitPrice(p, day, h, i).None?;
    }
  }

  lemma EntryIsTold(p: Params, day: Day, t: B.Trade, h: Hold)
    requires 0 < t.entryBar < |day| && Taken(p, day, t.entryBar - 1) && h == Entry(p, day, t.entryBar - 1)
    requires h.unit > 0.0 && t.side == h.side
    ensures h.Held? && h.side in {-1, 1} && h.entryBar == t.entryBar
    ensures LevelsAsTold(p, day, t, h.entry, h.unit, h.stop, h.target)
  {
    SideExactly(p, day[t.entryBar - 1]);
  }

  lemma ExitIsTold(p: Params, day: Day, t: B.Trade, h: Hold)
    requires h.Held? && h.side == t.side && h.side in {-1, 1} && h.entryBar == t.entryBar
    requires 0 <= t.entryBar <= t.exitBar < |day| && LeavesAt(p, day, h, t.exitBar).Some?
    ensures LeavesAsTold(p, day, t, h.stop, h.target, LeavesAt(p, day, h, t.exitBar).value)
  {
    LevelsTouched(h, day[t.exitBar]);
    RevertsAtMiddle(p, h, day[t.exitBar]);
  }

  lemma ExplainedIsTold(p: Params, day: Day, t: B.Trade)
    requires Explained(p, day, t)
    ensures ToldByDay(p, day, t)
  {
    var h := Entry(p, day, t.entryBar - 1);
    EntryIsTold(p, day, t, h);
    OpenIsOn(p, day, t, h);
    ExitIsTold(p, day, t, h);
    assert EarnsAsTold(p, t, h.entry, h.unit, LeavesAt(p, day, h, t.exitBar).value);
  }

  /** Every trade of a day is told by the bars of that day. */
  lemma DayTradesAreTold(p: Params, day: Day, t: B.Trade)
    requires p.atrStop > 0.0 && t in DayTrades(p, day)
    ensures ToldByDay(p, day, t)
  {
    var k :| 0 <= k < |DayTrades(p, day)| && DayTrades(p, day)[k] == t;
    DayTradesExplained(p, day, k);
    ExplainedIsTold(p, day, t);
  }

  ghost predicate Occupied(s: Sim, m: nat) {
    || (s.hold.Held? && s.hold.entryBar <= m + 1)
    || exists t :: t in s.trades && t.entryBar <= m + 1 && m <= t.exitBar
  }

  lemma {:induction false} SignalsAreTakenUpTo(p: Params, day: Day, n: nat, m: nat)
    requires p.atrStop > 0.0 && FIRST <= m < n < |day| && Taken(p, day, m)
    ensures Occupied(Simulate(p, day, n), m)
  {
    var s, s' := Simulate(p, day, n - 1), Simulate(p, day, n);
    SimulatedInOrder(p, day, n - 1);
    if m < n - 1 { SignalsAreTakenUpTo(p, day, n - 1, m); }
    if s.hold.Held? && s'.hold.Flat? {
      var last := s'.trades[|s'.trades| - 1];
      assert last in s'.trades && last.entryBar == s.hold.entryBar && last.exitBar == n - 1;
    }
    assert forall t :: t in s.trades ==> t in s'.trades;
  }

  /** A bar whose signal has its target ahead of the fill. */
  predicate SignalBar(p: Params, day: Day, m: nat)
    requires m + 1 < |day|
  {
    && Ready(day[m])
    && var trend, buys := p.adxThreshold <= day[m].adx.value, BuySignal(p, day[m]);
       var d, open := p.atrStop * day[m].atr.value, day[m + 1].open;
       || (buys && (if trend then p.rr * d > 0.0 else open + p.adverse < day[m].ema20.value))
       || (!buys && SellSignal(p, day[m]) && (if trend then p.rr * d > 0.0 else day[m].ema20.value < open - p.adverse))
  }

  lemma TakenExactly(p: Params, day: Day, m: nat)
    requires m + 1 < |day|
    ensures Taken(p, day, m) <==> SignalBar(p, day, m)
  {
    if Ready(day[m]) {
      SideExactly(p, day[m]);
      var d, entry := p.atrStop * day[m].atr.value, Entry(p, day, m);
      assert entry.side == 1 ==> (entry.target - entry.entry) * 1.0 == entry.target - entry.entry;
      if entry.side == 1 && p.adxThreshold <= day[m].adx.value { assert entry.target - entry.entry == p.rr * d; }
      if entry.side == -1 && p.adxThreshold <= day[m].adx.value { assert entry.target - entry.entry == -(p.rr * d); }
    }
  }

  /** No signal of a day is missed: each starts a trade, unless another one is still on. */
  lemma SignalsAreTaken(p: Params, day: Day, m: nat)
    requires p.atrStop > 0.0 && 60 <= m && m + 1 < |day| && SignalBar(p, day, m)
    ensures exists t :: t in DayTrades(p, day) && t.entryBar <= m + 1 && m <= t.exitBar
  {
    var n := |day| - 1;
    TakenExactly(p, day, m);
    SignalsAreTakenUpTo(p, day, n, m);
    var s := Simulate(p, day, n);
    if s.hold.Held? && s.hold.entryBar <= m + 1 {
      var trades := DayTrades(p, day);
      assert trades[|trades| - 1] in trades;
    } else {
      var t :| t in s.trades && t.entryBar <= m + 1 && m <= t.exitBar;
      assert t in DayTrades(p, day);
    }
  }

  // ------------------------------------------------------------------- the loop

  datatype Metrics = Metrics(
    trades: nat, entries: nat, exits: nat, totalR: real, profitFactor: real, maxDrawdown: real, finalEquity: real)

  /** The profit factor; without losses it is 3 as soon as there is any profit. */
  function ProfitFactor(rs: seq<real>): real {
    if B.GrossLoss(rs) != 0.0 then B.GrossProfit(rs) / B.GrossLoss(rs) else if B.GrossProfit(rs) > 0.0 then 3.0 else 0.0
  }

  /** The profit factor times what was lost is what was won; without losses it is 3 if anything was won, else 0. */
  lemma ProfitFactorExactly(rs: seq<real>)
    ensures B.GrossLoss(rs) != 0.0 ==> ProfitFactor(rs) * B.GrossLoss(rs) == B.GrossProfit(rs)
    ensures B.GrossLoss(rs) == 0.0 ==> ProfitFactor(rs) == if B.GrossProfit(rs) > 0.0 then 3.0 else 0.0
  {
  }

  ghost predicate Accounts(rs: seq<real>, m: Metrics) {
    && m.trades == m.entries == m.exits == |rs|
    && m.totalR == B.Sum(rs) && m.profitFactor == ProfitFactor(rs)
    && m.maxDrawdown == B.MaxDrawdown(0.005, rs) && m.finalEquity == B.Equity(0.005, rs)
  }

  method MakeMetrics(rs: seq<real>, entries: nat, exits: nat) returns (m: Metrics)
    ensures entries == exits == |rs| ==> Accounts(rs, m)
  {
    var tally := B.Tally(0, 0, 0.0, 0.0, 0.0, B.START_EQUITY, B.START_EQUITY, 0.0);
    for i := 0 to |rs|
      invariant tally == B.TallyOf(RISK, rs[..i])
    {
      assert rs[..i + 1] == rs[..i] + [rs[i]];
      tally := B.Book(tally, rs[i], RISK, rs[..i]);
    }
    assert rs[..|rs|] == rs;
    var pf := if tally.grossLoss != 0.0 then tally.grossProfit / tally.grossLoss
              else if tally.grossProfit > 0.0 then 3.0 else 0.0;
    m := Metrics(|rs|, entries, exits, tally.totalR, pf, tally.maxDd, tally.equity);
  }

  /** The unit of risk of an open position, or `None` where the backtest raises an error. */
  function RiskUnit(p: Params, day: Day, entryBar: nat): Option<real>
    requires 0 < entryBar <= |day|
  {
    var atr := day[entryBar - 1].atr;
    if atr.None? || p.atrStop * atr.value <= 0.0 then None else Some(p.atrStop * atr.value)
  }

  lemma SoundRiskUnit(p: Params, day: Day, h: Hold)
    requires h.Held? && Sound(p, day, h)
    ensures RiskUnit(p, day, h.entryBar) == Some(h.unit)
  {
  }

  lemma NoRiskUnit(p: Params, day: Day, i: nat)
    requires p.atrStop <= 0.0 && i + 1 < |day| && Ready(day[i])
    ensures RiskUnit(p, day, i + 1).None?
  {
    assert p.atrStop * day[i].atr.value <= 0.0;
  }

  lemma OneMoreReturn(trades: seq<B.Trade>, t: B.Trade)
    ensures B.Returns(trades + [t]) == B.Returns(trades) + [t.r]
  {
    B.OneMoreTrade(trades, t);
  }

  /** How far the loop over a day has come: it follows the simulation, or, with a stop multiple that is not positive,
      no signal was taken yet or the one that was has no risk unit. */
  ghost predicate Progress(p: Params, day: Day, i: nat, hold: Hold, rs: seq<real>, entered: nat, exited: nat)
    requires FIRST <= i < |day|
  {
    && exited == |rs| && entered == exited + (if hold.Held? then 1 else 0)
    && (hold.Held? ==> FIRST < hold.entryBar <= i)
    && if p.atrStop > 0.0 then hold == Simulate(p, day, i).hold && rs == B.Returns(Simulate(p, day, i).trades)
       else rs == [] && (hold.Held? <==> Signals(p, day, i)) && (hold.Held? ==> RiskUnit(p, day, hold.entryBar).None?)
  }

  lemma FlatStep(p: Params, day: Day, i: nat, rs: seq<real>, entered: nat, exited: nat)
    requires FIRST <= i && i + 1 < |day| && Progress(p, day, i, Flat, rs, entered, exited)
    ensures Taken(p, day, i) ==> Progress(p, day, i + 1, Entry(p, day, i), rs, entered + 1, exited)
    ensures !Taken(p, day, i) ==> Progress(p, day, i + 1, Flat, rs, entered, exited)
  {
    if p.atrStop <= 0.0 && Taken(p, day, i) { NoRiskUnit(p, day, i); }
  }

  lemma HeldStep(p: Params, day: Day, i: nat, hold: Hold, rs: seq<real>, entered: nat, exited: nat)
    requires FIRST <= i && i + 1 < |day| && hold.Held? && Progress(p, day, i, hold, rs, entered, exited)
    requires RiskUnit(p, day, hold.entryBar).Some?
    ensures hold.unit != 0.0
    ensures var exit := ExitPrice(p, day, hold, i);
            if exit.None? then Progress(p, day, i + 1, hold, rs, entered, exited)
            else Progress(p, day, i + 1, Flat, rs + [Closed(p, hold, i, exit.value).r], entered, exited + 1)
  {
    var s, exit := Simulate(p, day, i), ExitPrice(p, day, hold, i);
    SoundRiskUnit(p, day, hold);
    if exit.Some? { OneMoreReturn(s.trades, Closed(p, hold, i, exit.value)); }
  }

  /** Only a stop multiple that is not positive, with a signal taken, leaves a position without a risk unit. */
  lemma FailsExactly(p: Params, day: Day, i: nat, hold: Hold, rs: seq<real>, entered: nat, exited: nat)
    requires FIRST <= i < |day| && hold.Held? && Progress(p, day, i, hold, rs, entered, exited)
    ensures RiskUnit(p, day, hold.entryBar).None? <==> p.atrStop <= 0.0
    ensures p.atrStop <= 0.0 ==> Signals(p, day, |day|)
  {
    if p.atrStop > 0.0 { SoundRiskUnit(p, day, hold); }
  }

  /** The loop over the bars of one day; it fails for want of a risk unit. */
  method RunBars(p: Params, day: Day) returns (failed: bool, rs: seq<real>, entered: nat, exited: nat, hold: Hold)
    requires |day| > FIRST + 1
    ensures failed ==> p.atrStop <= 0.0 && Signals(p, day, |day|)
    ensures !failed ==> Progress(p, day, |day| - 1, hold, rs, entered, exited)
  {
    failed, rs, entered, exited, hold := false, [], 0, 0, Flat;
    for i := FIRST to |day| - 1
      invariant Progress(p, day, i, hold, rs, entered, exited)
    {
      if hold.Flat? {
        FlatStep(p, day, i, rs, entered, exited);
        if Taken(p, day, i) {
          hold := Entry(p, day, i);
          entered := entered + 1;
        }
      } else {
        FailsExactly(p, day, i, hold, rs, entered, exited);
        if RiskUnit(p, day, hold.entryBar).None? { return true, rs, entered, exited, hold; }
        var exit := ExitPrice(p, day, hold, i);
        HeldStep(p, day, i, hold, rs, entered, exited);
        if exit.Some? {
          rs := rs + [Closed(p, hold, i, exit.value).r];
          exited := exited + 1;
          hold := Flat;
        }
      }
    }
  }

  lemma CloseOfDay(p: Params, day: Day, hold: Hold, rs: seq<real>, entered: nat, exited: nat)
    requires |day| > FIRST + 1 && hold.Held? && Progress(p, day, |day| - 1, hold, rs, entered, exited)
             && p.atrStop > 0.0
    ensures hold.unit != 0.0
    ensures DayReturns(p, day) == rs + [Closed(p, hold, |day| - 1, ClosingPrice(hold, day[|day| - 1])).r]
  {
    SoundRiskUnit(p, day, hold);
    OneMoreReturn(Simulate(p, day, |day| - 1).trades, Closed(p, hold, |day| - 1, ClosingPrice(hold, day[|day| - 1])));
  }

  /** No signal is taken on the last bar of a day: there is no bar to enter on. */
  lemma NoLateSignal(p: Params, day: Day)
    requires |day| > 0
    ensures Signals(p, day, |day|) <==> Signals(p, day, |day| - 1)
  {
  }

  /** The returns of one day; what is still open is closed on its last bar.  It fails exactly when the stop multiple is
      not positive and a signal is taken. */
  method RunDay(p: Params, day: Day) returns (failed: bool, rs: seq<real>, entered: nat, exited: nat)
    ensures failed <==> p.atrStop <= 0.0 && Signals(p, day, |day|)
    ensures !failed ==> entered == exited == |rs| && rs == DayReturns(p, day)
  {
    if |day| <= FIRST + 1 { return false, [], 0, 0; }
    var hold;
    failed, rs, entered, exited, hold := RunBars(p, day);
    if failed { return; }
    NoLateSignal(p, day);
    if hold.Held? {
      FailsExactly(p, day, |day| - 1, hold, rs, entered, exited);
      if RiskUnit(p, day, hold.entryBar).None? { return true, rs, entered, exited; }
      CloseOfDay(p, day, hold, rs, entered, exited);
      rs := rs + [Closed(p, hold, |day| - 1, ClosingPrice(hold, day[|day| - 1])).r];
      exited := exited + 1;
    }
  }

  datatype Backtested = InvalidRiskUnit | Report(rs: seq<real>, metrics: Metrics)

  /** For any parameters: the backtest raises exactly when the stop multiple is not positive and some day has a signal
      that is taken; that every entry has its exit never fails. */
  method Bt(p: Params, days: seq<Day>) returns (result: Backtested)
    ensures result.InvalidRiskUnit? <==> p.atrStop <= 0.0 && exists day :: day in days && Signals(p, day, |day|)
    ensures result.Report? ==> result.rs == AllReturns(p, days) && Accounts(result.rs, result.metrics)
  {
    var rs: seq<real> := [];
    var entries: nat, exits: nat := 0, 0;
    for d := 0 to |days|
      invariant rs == AllReturns(p, days[..d]) && entries == exits == |rs|
      invariant p.atrStop <= 0.0 ==> forall k :: 0 <= k < d ==> !Signals(p, days[k], |days[k]|)
    {
      assert days[..d + 1][..d] == days[..d];
      var failed, more, entered, exited := RunDay(p, days[d]);
      if failed { return InvalidRiskUnit; }
      rs, entries, exits := rs + more, entries + entered, exits + exited;
    }
    assert days[..|days|] == days;
    if entries != exits { assert false; }
    var metrics := MakeMetrics(rs, entries, exits);
    result := Report(rs, metrics);
  }
}
