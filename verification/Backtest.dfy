/** The canonical backtest kernel: one loop over bars, one position at a time. */
module Backtest {
  import opened Options

  /** One bar with its signal; `atr` is `None` when the indicator is not finite. */
  datatype Bar = Bar(time: int, open: real, high: real, low: real, signal: int, atr: Option<real>)

  /** `adverse` is the price lost on each side of a trade. */
  datatype Params = Params(atrMult: real, rr: real, risk: real, adverse: real, expiryBars: int, tradeStart: Option<int>)

  const MAX_RISK: real := 0.006
  const START_EQUITY: real := 10000.0

  predicate ValidParams(p: Params) {
    p.atrMult > 0.0 && p.rr > 0.0 && 0.0 < p.risk <= MAX_RISK
  }

  datatype Position = Flat | Held(side: int, entryBar: nat, entryPrice: real, stop: real, target: real, distance: real)

  datatype Trade = Trade(side: int, entryBar: nat, exitBar: nat, r: real)

  datatype Sim = Sim(position: Position, closed: seq<Trade>)

  /** How a bar that touches both stop and target is resolved. */
  datatype Resolution = StopFirst | TargetFirst

  // -------------------------------------------------------------- one bar

  predicate Enters(p: Params, bar: Bar) {
    && (p.tradeStart.None? || bar.time >= p.tradeStart.value)
    && bar.signal in {-1, 1}
    && bar.atr.Some? && bar.atr.value > 0.0
  }

  function Enter(p: Params, bars: seq<Bar>, i: nat): (h: Position)
    requires i + 1 < |bars| && bars[i].atr.Some?
    ensures h.Held? && h.entryBar == i + 1
  {
    var side := bars[i].signal;
    var distance := p.atrMult * bars[i].atr.value;
    var price := bars[i + 1].open + side as real * p.adverse;
    Held(side, i + 1, price, price - side as real * distance, price + side as real * p.rr * distance, distance)
  }

  predicate HitsStop(h: Position, bar: Bar)
    requires h.Held?
  {
    if h.side == 1 then bar.low <= h.stop else bar.high >= h.stop
  }

  predicate HitsTarget(h: Position, bar: Bar)
    requires h.Held?
  {
    if h.side == 1 then bar.high >= h.target else bar.low <= h.target
  }

  function Age(h: Position, i: int): int
    requires h.Held?
  {
    i - h.entryBar + 1
  }

  /** The raw price at which a held position leaves on bar `i`, if it does. */
  function ExitPrice(p: Params, how: Resolution, bars: seq<Bar>, h: Position, i: nat): Option<real>
    requires i + 1 < |bars| && h.Held?
  {
    if HitsStop(h, bars[i]) && (how == StopFirst || !HitsTarget(h, bars[i])) then Some(h.stop)
    else if HitsTarget(h, bars[i]) then Some(h.target)
    else if bars[i].signal == -h.side || Age(h, i) >= p.expiryBars then Some(bars[i + 1].open)
    else None
  }

  /** The return of a trade in units of its risk, after the exit cost. */
  function Return(p: Params, h: Position, raw: real): real
    requires h.Held? && h.distance != 0.0
  {
    h.side as real * (raw - h.side as real * p.adverse - h.entryPrice) / h.distance
  }

  predicate Sane(position: Position) {
    position.Held? ==> position.distance > 0.0 && position.side in {-1, 1}
  }

  function StepBar(p: Params, how: Resolution, bars: seq<Bar>, s: Sim, i: nat): (s': Sim)
    requires i + 1 < |bars| && p.atrMult > 0.0 && Sane(s.position)
    ensures Sane(s'.position)
  {
    match s.position
    case Flat => if Enters(p, bars[i]) then Sim(Enter(p, bars, i), s.closed) else s
    case Held(side, entryBar, _, _, _, _) =>
      if i < entryBar then s
      else
        var exit := ExitPrice(p, how, bars, s.position, i);
        if exit.None? then s
        else Sim(Flat, s.closed + [Trade(side, entryBar, i, Return(p, s.position, exit.value))])
  }

  /** The simulation after the first `n` bars have been processed. */
  function Simulate(p: Params, how: Resolution, bars: seq<Bar>, n: nat): (s: Sim)
    requires n < |bars| || n == 0
    requires p.atrMult > 0.0
    ensures Sane(s.position)
  {
    if n == 0 then Sim(Flat, []) else StepBar(p, how, bars, Simulate(p, how, bars, n - 1), n - 1)
  }

  /** The last bar is only ever filled on, never processed. */
  function LastProcessed(bars: seq<Bar>): nat {
    if |bars| == 0 then 0 else |bars| - 1
  }

  function Returns(trades: seq<Trade>): (rs: seq<real>)
    ensures |rs| == |trades|
  {
    if |trades| == 0 then [] else Returns(trades[..|trades| - 1]) + [trades[|trades| - 1].r]
  }

  // ------------------------------------------------------------ accounting

  function Wins(rs: seq<real>): nat {
    if |rs| == 0 then 0 else Wins(rs[..|rs| - 1]) + if rs[|rs| - 1] > 0.0 then 1 else 0
  }

  function Losses(rs: seq<real>): nat {
    if |rs| == 0 then 0 else Losses(rs[..|rs| - 1]) + if rs[|rs| - 1] > 0.0 then 0 else 1
  }

  function Sum(rs: seq<real>): real {
    if |rs| == 0 then 0.0 else Sum(rs[..|rs| - 1]) + rs[|rs| - 1]
  }

  function GrossProfit(rs: seq<real>): real {
    if |rs| == 0 then 0.0 else GrossProfit(rs[..|rs| - 1]) + if rs[|rs| - 1] > 0.0 then rs[|rs| - 1] else 0.0
  }

  function GrossLoss(rs: seq<real>): real {
    if |rs| == 0 then 0.0 else GrossLoss(rs[..|rs| - 1]) + if rs[|rs| - 1] > 0.0 then 0.0 else -rs[|rs| - 1]
  }

  /** Equity after a list of returns: the start times the product of the factors. */
  function Equity(risk: real, rs: seq<real>): real {
    if |rs| == 0 then START_EQUITY else Grown(Equity(risk, rs[..|rs| - 1]), rs[|rs| - 1], risk)
  }

  function Grown(equity: real, r: real, risk: real): real {
    equity * (1.0 + r * risk)
  }

  /** How far equity is below its peak, as a fraction of the peak. */
  function Below(peak: real, equity: real): real
    requires peak > 0.0
  {
    (peak - equity) / peak
  }

  function Max(a: real, b: real): real {
    if a >= b then a else b
  }

  /** The highest equity reached after any number of the returns. */
  function Peak(risk: real, rs: seq<real>): (peak: real)
    ensures peak >= START_EQUITY
  {
    if |rs| == 0 then START_EQUITY else Max(Peak(risk, rs[..|rs| - 1]), Equity(risk, rs))
  }

  function Drawdown(risk: real, rs: seq<real>): real {
    Below(Peak(risk, rs), Equity(risk, rs))
  }

  function MaxDrawdown(risk: real, rs: seq<real>): real {
    if |rs| == 0 then 0.0 else Max(MaxDrawdown(risk, rs[..|rs| - 1]), Drawdown(risk, rs))
  }

  lemma {:induction false} WinsAndLosses(rs: seq<real>)
    ensures Wins(rs) + Losses(rs) == |rs| && GrossProfit(rs) - GrossLoss(rs) == Sum(rs)
    ensures GrossProfit(rs) >= 0.0 && GrossLoss(rs) >= 0.0
  {
    if |rs| > 0 { WinsAndLosses(rs[..|rs| - 1]); }
  }

  /** A win is a positive return; what was won and lost in all adds up to the returns without their signs. */
  lemma {:induction false} WinsExactly(rs: seq<real>)
    ensures Wins(rs) == |set k: nat | k < |rs| && rs[k] > 0.0|
    ensures GrossProfit(rs) + GrossLoss(rs) == SumOfSizes(rs)
  {
    var winning := set k: nat | k < |rs| && rs[k] > 0.0;
    if |rs| == 0 {
      assert winning == {};
    } else {
      var init := rs[..|rs| - 1];
      WinsExactly(init);
      var before := set k: nat | k < |init| && init[k] > 0.0;
      assert winning == before + if rs[|rs| - 1] > 0.0 then {|rs| - 1} else {};
    }
  }

  function SumOfSizes(rs: seq<real>): real {
    if |rs| == 0 then 0.0
    else SumOfSizes(rs[..|rs| - 1]) + if rs[|rs| - 1] < 0.0 then -rs[|rs| - 1] else rs[|rs| - 1]
  }

  /** Equity starts at ten thousand, and each return moves it by that return times the risk fraction of it. */
  lemma EquityMoves(risk: real, rs: seq<real>, k: nat)
    requires k < |rs|
    ensures Equity(risk, []) == 10000.0
    ensures Equity(risk, rs[..k + 1]) - Equity(risk, rs[..k]) == Equity(risk, rs[..k]) * (rs[k] * risk)
  {
    assert rs[..k + 1][..k] == rs[..k];
    assert Equity(risk, rs[..k]) * (1.0 + rs[k] * risk) == Equity(risk, rs[..k])
      + Equity(risk, rs[..k]) * (rs[k] * risk);
  }

  /** The peak is the highest equity over all prefixes, and is reached. */
  lemma {:induction false} PeakIsHighest(risk: real, rs: seq<real>)
    ensures forall k :: 0 <= k <= |rs| ==> Equity(risk, rs[..k]) <= Peak(risk, rs)
    ensures exists k :: 0 <= k <= |rs| && Equity(risk, rs[..k]) == Peak(risk, rs)
  {
    assert rs[..|rs|] == rs;
    if |rs| == 0 {
      assert Equity(risk, rs[..0]) == Peak(risk, rs);
    } else {
      var init := rs[..|rs| - 1];
      PeakIsHighest(risk, init);
      forall k | 0 <= k <= |rs| ensures Equity(risk, rs[..k]) <= Peak(risk, rs) {
        if k < |rs| { assert init[..k] == rs[..k]; }
      }
      if Equity(risk, rs) < Peak(risk, init) {
        var k :| 0 <= k <= |init| && Equity(risk, init[..k]) == Peak(risk, init);
        assert init[..k] == rs[..k];
      } else {
        assert Equity(risk, rs[..|rs|]) == Peak(risk, rs);
      }
    }
  }

  /** The reported drawdown is the largest over all prefixes, and is reached. */
  lemma {:induction false} DrawdownIsLargest(risk: real, rs: seq<real>)
    ensures forall k :: 0 <= k <= |rs| ==> Drawdown(risk, rs[..k]) <= MaxDrawdown(risk, rs)
    ensures exists k :: 0 <= k <= |rs| && Drawdown(risk, rs[..k]) == MaxDrawdown(risk, rs)
  {
    assert rs[..|rs|] == rs;
    if |rs| == 0 {
      assert Drawdown(risk, rs[..0]) == 0.0;
    } else {
      var init := rs[..|rs| - 1];
      DrawdownIsLargest(risk, init);
      forall k | 0 <= k <= |rs| ensures Drawdown(risk, rs[..k]) <= MaxDrawdown(risk, rs) {
        if k < |rs| { assert init[..k] == rs[..k]; }
      }
      if Drawdown(risk, rs) < MaxDrawdown(risk, init) {
        var k :| 0 <= k <= |init| && Drawdown(risk, init[..k]) == MaxDrawdown(risk, init);
        assert init[..k] == rs[..k];
      } else {
        assert Drawdown(risk, rs[..|rs|]) == MaxDrawdown(risk, rs);
      }
    }
  }

  lemma HighsBelowPeak(risk: real, rs: seq<real>, j: nat, k: nat)
    requires j <= k <= |rs|
    ensures Equity(risk, rs[..j]) <= Peak(risk, rs[..k])
    ensures Below(Peak(risk, rs[..k]), Equity(risk, rs[..k])) <= MaxDrawdown(risk, rs)
  {
    DrawdownIsLargest(risk, rs);
    PeakIsHighest(risk, rs[..k]);
    assert rs[..k][..j] == rs[..j];
  }

  /** What is left of an amount that fell by a fraction of it. */
  function Fallen(amount: real, share: real): real {
    amount * (1.0 - share)
  }

  /** No later equity that is not negative lies further below an earlier positive one, relative to that, than the
      drawdown says. */
  lemma DrawdownIsLargestFall(risk: real, rs: seq<real>, j: nat, k: nat)
    requires j <= k <= |rs| && Equity(risk, rs[..j]) > 0.0 && Equity(risk, rs[..k]) >= 0.0
    ensures Equity(risk, rs[..k]) >= Fallen(Equity(risk, rs[..j]), MaxDrawdown(risk, rs))
  {
    HighsBelowPeak(risk, rs, j, k);
    FallFromPeak(Peak(risk, rs[..k]), Equity(risk, rs[..j]), Equity(risk, rs[..k]), MaxDrawdown(risk, rs));
  }

  lemma FallFromPeak(peak: real, high: real, low: real, worst: real)
    requires 0.0 < high <= peak && 0.0 <= low && Below(peak, low) <= worst
    ensures low >= Fallen(high, worst)
  {
    assert (peak - low) / peak * peak == peak - low;
    assert peak - low <= worst * peak;
    if worst <= 1.0 {
      assert high * (1.0 - worst) <= peak * (1.0 - worst);
    } else {
      assert high * (1.0 - worst) <= 0.0;
    }
  }

  lemma PeakAndLow(risk: real, rs: seq<real>) returns (j: nat, k: nat)
    ensures j <= k <= |rs| && Equity(risk, rs[..j]) == Peak(risk, rs[..k])
    ensures Below(Peak(risk, rs[..k]), Equity(risk, rs[..k])) == MaxDrawdown(risk, rs)
  {
    DrawdownIsLargest(risk, rs);
    k :| 0 <= k <= |rs| && Drawdown(risk, rs[..k]) == MaxDrawdown(risk, rs);
    PeakIsHighest(risk, rs[..k]);
    j :| 0 <= j <= |rs[..k]| && Equity(risk, rs[..k][..j]) == Peak(risk, rs[..k]);
    assert rs[..k][..j] == rs[..j];
  }

  lemma FellFrom(peak: real, low: real, worst: real)
    requires peak > 0.0 && Below(peak, low) == worst
    ensures low == Fallen(peak, worst)
  {
    assert (peak - low) / peak * peak == peak - low;
  }

  /** And some later equity lies exactly that far below an earlier one. */
  lemma DrawdownIsAFall(risk: real, rs: seq<real>) returns (j: nat, k: nat)
    ensures j <= k <= |rs| && Equity(risk, rs[..j]) > 0.0
    ensures Equity(risk, rs[..k]) == Fallen(Equity(risk, rs[..j]), MaxDrawdown(risk, rs))
  {
    j, k := PeakAndLow(risk, rs);
    FellFrom(Equity(risk, rs[..j]), Equity(risk, rs[..k]), MaxDrawdown(risk, rs));
  }

  // ------------------------------------------------------------ the trades

  function LongestHold(p: Params): int {
    if p.expiryBars >= 1 then p.expiryBars else 1
  }

  /** Trades one after the other, each held for one to `longest` bars, the last one closed before bar `next - 1`. */
  predicate InOrder(longest: int, trades: seq<Trade>, next: int) {
    |trades| == 0 ||
    var t := trades[|trades| - 1];
    && t.entryBar <= t.exitBar && t.exitBar + 1 < next
    && t.exitBar - t.entryBar + 1 <= longest
    && InOrder(longest, trades[..|trades| - 1], t.entryBar)
  }

  /** After `n` bars: the closed trades are in order and the open one comes after them and is not overdue. */
  predicate OneAtATime(p: Params, s: Sim, n: nat) {
    match s.position
    case Flat => InOrder(LongestHold(p), s.closed, n + 1)
    case Held(_, entryBar, _, _, _, _) =>
      InOrder(LongestHold(p), s.closed, entryBar) && entryBar <= n && n - entryBar < LongestHold(p)
  }

  lemma OneMoreInOrder(longest: int, trades: seq<Trade>, t: Trade)
    requires InOrder(longest, trades, t.entryBar) && t.entryBar <= t.exitBar && t.exitBar - t.entryBar + 1 <= longest
    ensures InOrder(longest, trades + [t], t.exitBar + 2)
  {
    assert (trades + [t])[..|trades|] == trades;
  }

  lemma StepKeepsOrder(p: Params, how: Resolution, bars: seq<Bar>, s: Sim, n: nat)
    requires n + 1 < |bars| && p.atrMult > 0.0 && Sane(s.position) && OneAtATime(p, s, n)
    ensures OneAtATime(p, StepBar(p, how, bars, s, n), n + 1)
  {
    if s.position.Held? && n >= s.position.entryBar {
      var exit := ExitPrice(p, how, bars, s.position, n);
      if exit.Some? {
        OneMoreInOrder(LongestHold(p), s.closed,
                       Trade(s.position.side, s.position.entryBar, n, Return(p, s.position, exit.value)));
      }
    }
  }

  lemma {:induction false} TradesAreInOrder(p: Params, how: Resolution, bars: seq<Bar>, n: nat)
    requires n < |bars| && p.atrMult > 0.0
    ensures OneAtATime(p, Simulate(p, how, bars, n), n)
  {
    if n > 0 {
      TradesAreInOrder(p, how, bars, n - 1);
      StepKeepsOrder(p, how, bars, Simulate(p, how, bars, n - 1), n - 1);
    }
  }

  lemma {:induction false} InOrderPairwise(longest: int, trades: seq<Trade>, next: int, j: nat, k: nat)
    requires InOrder(longest, trades, next) && j <= k < |trades|
    ensures trades[j].entryBar <= trades[j].exitBar && trades[j].exitBar - trades[j].entryBar + 1 <= longest
    ensures trades[j].exitBar + 1 < if j < k then trades[k].entryBar else next
    decreases |trades|
  {
    var t := trades[|trades| - 1];
    var init := trades[..|trades| - 1];
    if k < |trades| - 1 {
      InOrderPairwise(longest, init, t.entryBar, j, k);
    } else if j < k {
      InOrderPairwise(longest, init, t.entryBar, j, j);
    }
  }

  /** Two different trades are disjoint with a bar between them, and each trade is held from one bar to the expiry. */
  lemma TradesAreDisjoint(p: Params, how: Resolution, bars: seq<Bar>, n: nat, j: nat, k: nat)
    requires n < |bars| && p.atrMult > 0.0
    requires j <= k < |Simulate(p, how, bars, n).closed|
    ensures var trades := Simulate(p, how, bars, n).closed;
            && trades[k].entryBar <= trades[k].exitBar < n
            && trades[k].exitBar - trades[k].entryBar + 1 <= LongestHold(p)
            && (j < k ==> trades[j].exitBar + 1 < trades[k].entryBar)
  {
    TradesAreInOrder(p, how, bars, n);
    var s := Simulate(p, how, bars, n);
    var next := if s.position.Flat? then n + 1 else s.position.entryBar;
    InOrderPairwise(LongestHold(p), s.closed, next, k, k);
    if j < k { InOrderPairwise(LongestHold(p), s.closed, next, j, k); }
  }

  // ------------------------------------------------- what a closed trade earned

  /** No bar from the fill up to bar `n` closes this position. */
  ghost predicate StaysOpen(p: Params, how: Resolution, bars: seq<Bar>, h: Position, n: nat)
    requires h.Held? && n < |bars|
  {
    forall i :: h.entryBar <= i < n ==> ExitPrice(p, how, bars, h, i).None?
  }

  /** An open position was entered on the bar after a signal, at that bar's open plus the cost, and nothing closed it
      yet. */
  ghost predicate Grounded(p: Params, how: Resolution, bars: seq<Bar>, position: Position, n: nat)
    requires n < |bars|
  {
    position.Held? ==>
      && 0 < position.entryBar < |bars|
      && Enters(p, bars[position.entryBar - 1])
      && position == Enter(p, bars, position.entryBar - 1)
      && StaysOpen(p, how, bars, position, n)
  }

  /** The cost of one side of a trade in units of its risk. */
  function Cost(p: Params, distance: real): real
    requires distance != 0.0
  {
    p.adverse / distance
  }

  /** A closed trade left on the first bar that closes it and earned what that bar says: minus one, the reward ratio or
      the move between the two opens, net of costs. */
  ghost predicate Explained(p: Params, how: Resolution, bars: seq<Bar>, t: Trade)
    requires p.atrMult > 0.0
  {
    && 0 < t.entryBar <= t.exitBar && t.exitBar + 1 < |bars|
    && Enters(p, bars[t.entryBar - 1]) && t.side == bars[t.entryBar - 1].signal
    && var h := Enter(p, bars, t.entryBar - 1);
       var cost := Cost(p, h.distance);
       && StaysOpen(p, how, bars, h, t.exitBar)
       && if HitsStop(h, bars[t.exitBar]) && (how == StopFirst || !HitsTarget(h, bars[t.exitBar]))
          then t.r == -1.0 - cost
       else if HitsTarget(h, bars[t.exitBar]) then t.r == p.rr - cost
       else
         && (bars[t.exitBar].signal == -t.side || t.exitBar - t.entryBar + 1 >= p.expiryBars)
         && t.r == t.side as real * (bars[t.exitBar + 1].open - bars[t.entryBar].open) / h.distance - 2.0 * cost
  }

  lemma DivideSum(x: real, y: real, d: real)
    requires d != 0.0
    ensures (x + y) / d == x / d + y / d
  {
  }

  lemma DivideMultiple(k: real, d: real)
    requires d != 0.0
    ensures k * d / d == k
  {
  }

  lemma StopAlgebra(side: real, d: real, c: real, entry: real)
    requires d != 0.0 && (side == 1.0 || side == -1.0)
    ensures side * (entry - side * d - side * c - entry) / d == -1.0 - c / d
  {
    assert side * (entry - side * d - side * c - entry) == -1.0 * d + -c;
    DivideSum(-1.0 * d, -c, d);
    DivideMultiple(-1.0, d);
    DivideSum(c, -c, d);
  }

  lemma TargetAlgebra(side: real, rr: real, d: real, c: real, entry: real)
    requires d != 0.0 && (side == 1.0 || side == -1.0)
    ensures side * (entry + side * rr * d - side * c - entry) / d == rr - c / d
  {
    assert side * (entry + side * rr * d - side * c - entry) == rr * d + -c;
    DivideSum(rr * d, -c, d);
    DivideMultiple(rr, d);
    DivideSum(c, -c, d);
  }

  lemma OpenAlgebra(side: real, d: real, c: real, open: real, exit: real)
    requires d != 0.0 && (side == 1.0 || side == -1.0)
    ensures side * (exit - side * c - (open + side * c)) / d == side * (exit - open) / d - 2.0 * (c / d)
  {
    assert side * (exit - side * c - (open + side * c)) == side * (exit - open) + (-c + -c);
    DivideSum(side * (exit - open), -c + -c, d);
    DivideSum(-c, -c, d);
    DivideSum(c, -c, d);
  }

  /** The levels of a position are set from its entry price. */
  predicate Levelled(p: Params, h: Position)
    requires h.Held?
  {
    && h.stop == h.entryPrice - h.side as real * h.distance
    && h.target == h.entryPrice + h.side as real * p.rr * h.distance
  }

  lemma LevelReturn(p: Params, h: Position)
    requires h.Held? && h.side in {-1, 1} && h.distance != 0.0 && Levelled(p, h)
    ensures Return(p, h, h.stop) == -1.0 - Cost(p, h.distance)
    ensures Return(p, h, h.target) == p.rr - Cost(p, h.distance)
  {
    StopAlgebra(h.side as real, h.distance, p.adverse, h.entryPrice);
    TargetAlgebra(h.side as real, p.rr, h.distance, p.adverse, h.entryPrice);
  }

  lemma OpenReturn(p: Params, h: Position, fill: real, exitOpen: real)
    requires h.Held? && h.side in {-1, 1} && h.distance != 0.0 && h.entryPrice == fill + h.side as real * p.adverse
    ensures Return(p, h, exitOpen) == h.side as real * (exitOpen - fill) / h.distance - 2.0 * Cost(p, h.distance)
  {
    OpenAlgebra(h.side as real, h.distance, p.adverse, fill, exitOpen);
  }

  lemma EnterLevels(p: Params, bars: seq<Bar>, i: nat)
    requires i + 1 < |bars| && p.atrMult > 0.0 && Enters(p, bars[i])
    ensures var h := Enter(p, bars, i);
            && h.side in {-1, 1} && h.distance > 0.0 && Levelled(p, h)
            && h.entryPrice == bars[i + 1].open + h.side as real * p.adverse
  {
  }

  lemma NetReturn(p: Params, bars: seq<Bar>, i: nat, exitOpen: real)
    requires i + 1 < |bars| && p.atrMult > 0.0 && Enters(p, bars[i])
    ensures var h := Enter(p, bars, i);
            && h.Held? && h.distance > 0.0
            && Return(p, h, h.stop) == -1.0 - Cost(p, h.distance)
            && Return(p, h, h.target) == p.rr - Cost(p, h.distance)
            && Return(p, h, exitOpen) == h.side as real * (exitOpen - bars[i + 1].open) / h.distance
               - 2.0 * Cost(p, h.distance)
  {
    EnterLevels(p, bars, i);
    LevelReturn(p, Enter(p, bars, i));
    OpenReturn(p, Enter(p, bars, i), bars[i + 1].open, exitOpen);
  }

  lemma ClosingIsExplained(p: Params, how: Resolution, bars: seq<Bar>, h: Position, i: nat)
    requires i + 1 < |bars| && p.atrMult > 0.0 && h.Held? && Grounded(p, how, bars, h, i) && h.entryBar <= i && Sane(h)
    requires ExitPrice(p, how, bars, h, i).Some?
    ensures Explained(p, how, bars, Trade(h.side, h.entryBar, i, Return(p, h, ExitPrice(p, how, bars, h, i).value)))
  {
    NetReturn(p, bars, h.entryBar - 1, bars[i + 1].open);
  }

  lemma {:induction false} OpenIsGrounded(p: Params, how: Resolution, bars: seq<Bar>, n: nat)
    requires n < |bars| && p.atrMult > 0.0
    ensures Grounded(p, how, bars, Simulate(p, how, bars, n).position, n)
  {
    if n > 0 { OpenIsGrounded(p, how, bars, n - 1); }
  }

  /** Every closed trade follows a signal bar and earned what the bars between say, net of both costs. */
  lemma {:induction false} TradesAreExplained(p: Params, how: Resolution, bars: seq<Bar>, n: nat, k: nat)
    requires n < |bars| && p.atrMult > 0.0 && k < |Simulate(p, how, bars, n).closed|
    ensures Explained(p, how, bars, Simulate(p, how, bars, n).closed[k])
  {
    var s := Simulate(p, how, bars, n - 1);
    if k < |s.closed| {
      TradesAreExplained(p, how, bars, n - 1, k);
      ClosedOnlyGrows(p, how, bars, n - 1, n);
    } else {
      OpenIsGrounded(p, how, bars, n - 1);
      ClosingIsExplained(p, how, bars, s.position, n - 1);
    }
  }

  // -------------------------------------------------- trades in prices and bars alone

  /** A bar on which a flat book enters: not too early, with a direction and a positive range. */
  predicate EntryBar(p: Params, bar: Bar) {
    && (p.tradeStart.Some? ==> p.tradeStart.value <= bar.time)
    && (bar.signal == 1 || bar.signal == -1)
    && bar.atr.Some? && 0.0 < bar.atr.value
  }

  /** The worst price of the bar for a trade of this side has come to the stop. */
  predicate StopTouched(side: int, stop: real, bar: Bar) {
    (side == 1 && bar.low <= stop) || (side == -1 && stop <= bar.high)
  }

  predicate TargetTouched(side: int, target: real, bar: Bar) {
    (side == 1 && target <= bar.high) || (side == -1 && bar.low <= target)
  }

  /** No bar from the fill up to the exit touches a level, turns the signal or reaches the expiry. */
  ghost predicate StaysOn(p: Params, bars: seq<Bar>, t: Trade, stop: real, target: real)
    requires 0 <= t.entryBar <= t.exitBar < |bars|
  {
    forall i :: t.entryBar <= i < t.exitBar ==>
      && !StopTouched(t.side, stop, bars[i]) && !TargetTouched(t.side, target, bars[i])
      && bars[i].signal != -t.side && i - t.entryBar + 1 < p.expiryBars
  }

  /** The return, in units of the risk `d`, of whatever the exit bar does. */
  predicate EarnsAsTold(p: Params, how: Resolution, bars: seq<Bar>, t: Trade, d: real, stop: real, target: real)
    requires 0 <= t.entryBar <= t.exitBar && t.exitBar + 1 < |bars| && d > 0.0
  {
    var last := bars[t.exitBar];
    if StopTouched(t.side, stop, last) && (how == TargetFirst ==> !TargetTouched(t.side, target, last)) then
      t.r == -1.0 - p.adverse / d
    else if TargetTouched(t.side, target, last) then t.r == p.rr - p.adverse / d
    else
      && (last.signal == -t.side || p.expiryBars <= t.exitBar - t.entryBar + 1)
      && t.r == t.side as real * (bars[t.exitBar + 1].open - bars[t.entryBar].open) / d - 2.0 * (p.adverse / d)
  }

  /** The entry bar, the risk at the multiple of its range, and the levels around the fill at the next open, which is
      worse by the cost. */
  predicate LevelsAsTold(p: Params, bars: seq<Bar>, t: Trade, d: real, stop: real, target: real)
    requires 0 < t.entryBar < |bars|
  {
    && EntryBar(p, bars[t.entryBar - 1]) && t.side == bars[t.entryBar - 1].signal
    && d == p.atrMult * bars[t.entryBar - 1].atr.value && d > 0.0
    && var entry := bars[t.entryBar].open + t.side as real * p.adverse;
       stop == entry - t.side as real * d && target == entry + t.side as real * p.rr * d
  }

  /** A trade as its bars tell it: its levels, the first bar that ends it, and what it earned there. */
  ghost predicate ToldByBars(p: Params, how: Resolution, bars: seq<Bar>, t: Trade) {
    && 0 < t.entryBar <= t.exitBar && t.exitBar + 1 < |bars|
    && exists d, stop, target ::
         LevelsAsTold(p, bars, t, d, stop, target)
         && StaysOn(p, bars, t, stop, target) && EarnsAsTold(p, how, bars, t, d, stop, target)
  }

  lemma LevelsInPrices(p: Params, bars: seq<Bar>, i: nat)
    requires i + 1 < |bars| && p.atrMult > 0.0 && Enters(p, bars[i])
    ensures var h, side := Enter(p, bars, i), bars[i].signal;
            var d := p.atrMult * bars[i].atr.value;
            var entry := bars[i + 1].open + side as real * p.adverse;
            && EntryBar(p, bars[i]) && h.side == side && h.distance == d > 0.0
            && h.stop == entry - side as real * d && h.target == entry + side as real * p.rr * d
  {
    assert p.atrMult * bars[i].atr.value > 0.0;
  }

  lemma LevelsTouched(h: Position, bar: Bar)
    requires h.Held? && h.side in {-1, 1}
    ensures HitsStop(h, bar) <==> StopTouched(h.side, h.stop, bar)
    ensures HitsTarget(h, bar) <==> TargetTouched(h.side, h.target, bar)
  {
  }

  lemma OpenIsOn(p: Params, how: Resolution, bars: seq<Bar>, t: Trade, h: Position)
    requires h.Held? && h.side == t.side && h.side in {-1, 1} && h.entryBar == t.entryBar
    requires 0 <= t.entryBar <= t.exitBar && t.exitBar + 1 < |bars| && StaysOpen(p, how, bars, h, t.exitBar)
    ensures StaysOn(p, bars, t, h.stop, h.target)
  {
    forall i | t.entryBar <= i < t.exitBar
      ensures && !StopTouched(t.side, h.stop, bars[i]) && !TargetTouched(t.side, h.target, bars[i])
              && bars[i].signal != -t.side && i - t.entryBar + 1 < p.expiryBars
    {
      LevelsTouched(h, bars[i]);
      assert ExitPrice(p, how, bars, h, i).None?;
    }
  }

  lemma ReturnIsTold(p: Params, how: Resolution, bars: seq<Bar>, t: Trade, h: Position)
    requires p.atrMult > 0.0 && Explained(p, how, bars, t) && h == Enter(p, bars, t.entryBar - 1) && h.distance > 0.0
    requires h.side == t.side && h.side in {-1, 1}
    ensures EarnsAsTold(p, how, bars, t, h.distance, h.stop, h.target)
  {
    LevelsTouched(h, bars[t.exitBar]);
  }

  lemma ExplainedIsTold(p: Params, how: Resolution, bars: seq<Bar>, t: Trade)
    requires p.atrMult > 0.0 && Explained(p, how, bars, t)
    ensures ToldByBars(p, how, bars, t)
  {
    var h := Enter(p, bars, t.entryBar - 1);
    EntryIsTold(p, bars, t, h);
    OpenIsOn(p, how, bars, t, h);
    ReturnIsTold(p, how, bars, t, h);
  }

  lemma EntryIsTold(p: Params, bars: seq<Bar>, t: Trade, h: Position)
    requires p.atrMult > 0.0 && 0 < t.entryBar < |bars| && Enters(p, bars[t.entryBar - 1])
    requires t.side == bars[t.entryBar - 1].signal && h == Enter(p, bars, t.entryBar - 1)
    ensures LevelsAsTold(p, bars, t, h.distance, h.stop, h.target) && h.side == t.side && h.side in {-1, 1}
    ensures h.entryBar == t.entryBar
  {
    LevelsInPrices(p, bars, t.entryBar - 1);
  }

  /** Every closed trade is told by its bars. */
  lemma TradesAreTold(p: Params, how: Resolution, bars: seq<Bar>, n: nat, t: Trade)
    requires n < |bars| && p.atrMult > 0.0 && t in Simulate(p, how, bars, n).closed
    ensures ToldByBars(p, how, bars, t)
  {
    var k :| 0 <= k < |Simulate(p, how, bars, n).closed| && Simulate(p, how, bars, n).closed[k] == t;
    TradesAreExplained(p, how, bars, n, k);
    ExplainedIsTold(p, how, bars, t);
  }

  /** Bar `m` lies between the signal and the exit of some trade, closed or open. */
  ghost predicate Occupied(s: Sim, m: nat) {
    || (s.position.Held? && s.position.entryBar <= m + 1)
    || exists t :: t in s.closed && t.entryBar <= m + 1 && m <= t.exitBar
  }

  /** No signal is missed: every entry bar starts a trade, unless another one is still on. */
  lemma {:induction false} SignalsAreTaken(p: Params, how: Resolution, bars: seq<Bar>, n: nat, m: nat)
    requires m < n < |bars| && p.atrMult > 0.0 && EntryBar(p, bars[m])
    ensures Occupied(Simulate(p, how, bars, n), m)
  {
    var s, s' := Simulate(p, how, bars, n - 1), Simulate(p, how, bars, n);
    TradesAreInOrder(p, how, bars, n - 1);
    if m < n - 1 { SignalsAreTaken(p, how, bars, n - 1, m); }
    if s.position.Held? && s'.position.Flat? {
      var last := s'.closed[|s'.closed| - 1];
      assert last in s'.closed && last.entryBar == s.position.entryBar && last.exitBar == n - 1;
    }
    assert forall t :: t in s.closed ==> t in s'.closed;
  }

  // ------------------------------------------------------------ no look-ahead

  /** What happens on the first `n` bars depends on those and the next open only. */
  lemma {:induction false} SamePastSameState(p: Params, how: Resolution, a: seq<Bar>, b: seq<Bar>, n: nat)
    requires n < |a| && n < |b| && p.atrMult > 0.0
    requires forall i :: 0 <= i <= n ==> a[i] == b[i]
    ensures Simulate(p, how, a, n) == Simulate(p, how, b, n)
  {
    if n > 0 {
      SamePastSameState(p, how, a, b, n - 1);
      SameBarsSameStep(p, how, a, b, Simulate(p, how, a, n - 1), n - 1);
    }
  }

  lemma SameBarsSameStep(p: Params, how: Resolution, a: seq<Bar>, b: seq<Bar>, s: Sim, i: nat)
    requires i + 1 < |a| && i + 1 < |b| && p.atrMult > 0.0 && Sane(s.position)
    requires a[i] == b[i] && a[i + 1] == b[i + 1]
    ensures StepBar(p, how, a, s, i) == StepBar(p, how, b, s, i)
  {
    if s.position.Held? {
      assert ExitPrice(p, how, a, s.position, i) == ExitPrice(p, how, b, s.position, i);
    } else if Enters(p, a[i]) {
      assert Enter(p, a, i) == Enter(p, b, i);
    }
  }

  lemma {:induction false} ClosedOnlyGrows(p: Params, how: Resolution, bars: seq<Bar>, m: nat, n: nat)
    requires m <= n < |bars| && p.atrMult > 0.0
    ensures Simulate(p, how, bars, m).closed <= Simulate(p, how, bars, n).closed
    decreases n
  {
    if m < n { ClosedOnlyGrows(p, how, bars, m, n - 1); }
  }

  lemma {:induction false} ReturnsOfPrefix(a: seq<Trade>, b: seq<Trade>)
    requires a <= b
    ensures Returns(a) <= Returns(b)
    decreases |b|
  {
    if |a| < |b| {
      ReturnsOfPrefix(a, b[..|b| - 1]);
    } else {
      assert a == b;
    }
  }

  /** No look-ahead: the returns on a series are a prefix of the returns on any longer series that starts with it. */
  lemma NoLookAhead(p: Params, how: Resolution, a: seq<Bar>, b: seq<Bar>)
    requires a <= b && p.atrMult > 0.0
    ensures Returns(Simulate(p, how, a, LastProcessed(a)).closed)
            <= Returns(Simulate(p, how, b, LastProcessed(b)).closed)
  {
    if |a| > 0 {
      SamePastSameState(p, how, a, b, LastProcessed(a));
      ClosedOnlyGrows(p, how, b, LastProcessed(a), LastProcessed(b));
      ReturnsOfPrefix(Simulate(p, how, a, LastProcessed(a)).closed, Simulate(p, how, b, LastProcessed(b)).closed);
    }
  }

  // ---------------------------------------------------------- stop first is conservative

  ghost predicate SameTradesNoBetter(x: seq<Trade>, y: seq<Trade>) {
    |x| == |y| && forall k :: 0 <= k < |x| ==>
      x[k].side == y[k].side && x[k].entryBar == y[k].entryBar && x[k].exitBar == y[k].exitBar && x[k].r <= y[k].r
  }

  predicate Anchored(position: Position) {
    position.Held? ==>
      && position.side in {-1, 1}
      && position.distance > 0.0
      && position.side as real * position.stop <= position.side as real * position.target
  }

  lemma StopBelowTarget(p: Params, h: Position)
    requires h.Held? && Anchored(h)
    ensures Return(p, h, h.stop) <= Return(p, h, h.target)
  {
    var x := h.side as real * (h.stop - h.side as real * p.adverse - h.entryPrice);
    var y := h.side as real * (h.target - h.side as real * p.adverse - h.entryPrice);
    assert x <= y;
    DivideOrdered(x, y, h.distance);
  }

  lemma DivideOrdered(x: real, y: real, d: real)
    requires d > 0.0 && x <= y
    ensures x / d <= y / d
  {
  }

  lemma EnterIsAnchored(p: Params, bars: seq<Bar>, i: nat)
    requires i + 1 < |bars| && ValidParams(p) && Enters(p, bars[i])
    ensures Anchored(Enter(p, bars, i))
  {
    assert p.atrMult * bars[i].atr.value > 0.0;
    assert p.rr * (p.atrMult * bars[i].atr.value) > 0.0;
  }

  /** Resolving an ambiguous bar against the trader changes no trade, only lowers its return. */
  lemma {:induction false} StopFirstIsConservative(p: Params, bars: seq<Bar>, n: nat)
    requires n < |bars| && ValidParams(p)
    ensures var s, t := Simulate(p, StopFirst, bars, n), Simulate(p, TargetFirst, bars, n);
            s.position == t.position && Anchored(s.position) && SameTradesNoBetter(s.closed, t.closed)
  {
    if n > 0 {
      StopFirstIsConservative(p, bars, n - 1);
      var s := Simulate(p, StopFirst, bars, n - 1);
      if s.position.Flat? {
        if Enters(p, bars[n - 1]) { EnterIsAnchored(p, bars, n - 1); }
      } else {
        StopBelowTarget(p, s.position);
      }
    }
  }

  // ------------------------------------------------------------------ the loop

  datatype Report = Report(rs: seq<real>, holds: seq<int>, wins: nat, losses: nat, grossProfit: real, grossLoss: real,
                           totalR: real, equity: real, maxDrawdown: real, profitFactor: real, openAtEnd: bool)

  function Holds(trades: seq<Trade>): seq<int> {
    if |trades| == 0 then []
    else Holds(trades[..|trades| - 1]) + [trades[|trades| - 1].exitBar - trades[|trades| - 1].entryBar + 1]
  }

  /** The returns and holding times of a report are those of the trades, in order; a trade closed on its fill bar was
      held for one. */
  lemma {:induction false} FiguresOfTrades(trades: seq<Trade>, k: nat)
    requires k < |trades|
    ensures |Returns(trades)| == |Holds(trades)| == |trades|
    ensures Returns(trades)[k] == trades[k].r && Holds(trades)[k] == trades[k].exitBar - trades[k].entryBar + 1
  {
    var init := trades[..|trades| - 1];
    if k < |init| {
      FiguresOfTrades(init, k);
    } else if init != [] {
      FiguresOfTrades(init, 0);
    }
  }

  /** The running totals of the loop. */
  datatype Tally = Tally(wins: nat, losses: nat, grossProfit: real, grossLoss: real, totalR: real, equity: real,
                         peak: real, maxDd: real)

  /** The totals a list of returns comes to. */
  ghost function TallyOf(risk: real, rs: seq<real>): Tally {
    Tally(Wins(rs), Losses(rs), GrossProfit(rs), GrossLoss(rs), Sum(rs), Equity(risk, rs), Peak(risk, rs),
          MaxDrawdown(risk, rs))
  }

  lemma TallyNext(risk: real, rs: seq<real>, r: real)
    ensures var t, t' := TallyOf(risk, rs), TallyOf(risk, rs + [r]);
            && t'.wins == t.wins + (if r > 0.0 then 1 else 0) && t'.losses == t.losses + (if r > 0.0 then 0 else 1)
            && t'.grossProfit == t.grossProfit + (if r > 0.0 then r else 0.0)
            && t'.grossLoss == t.grossLoss + (if r > 0.0 then 0.0 else -r)
            && t'.totalR == t.totalR + r
    ensures Equity(risk, rs + [r]) == Grown(Equity(risk, rs), r, risk)
    ensures Peak(risk, rs + [r]) == Max(Peak(risk, rs), Equity(risk, rs + [r]))
    ensures MaxDrawdown(risk, rs + [r])
            == Max(MaxDrawdown(risk, rs), Below(Peak(risk, rs + [r]), Equity(risk, rs + [r])))
  {
    assert (rs + [r])[..|rs|] == rs;
  }

  /** Book one more return into the running totals. */
  method Book(t: Tally, r: real, risk: real, ghost rs: seq<real>) returns (t': Tally)
    requires t == TallyOf(risk, rs)
    ensures t' == TallyOf(risk, rs + [r])
  {
    TallyNext(risk, rs, r);
    var equity := Grown(t.equity, r, risk);
    var peak := Max(t.peak, equity);
    var drop := Below(peak, equity);
    t' := Tally(if r > 0.0 then t.wins + 1 else t.wins, if r > 0.0 then t.losses else t.losses + 1,
                if r > 0.0 then t.grossProfit + r else t.grossProfit, if r > 0.0 then t.grossLoss else t.grossLoss + -r,
                t.totalR + r, equity, peak, Max(t.maxDd, drop));
  }

  lemma OneMoreTrade(trades: seq<Trade>, t: Trade)
    ensures Returns(trades + [t]) == Returns(trades) + [t.r]
    ensures Holds(trades + [t]) == Holds(trades) + [t.exitBar - t.entryBar + 1]
  {
    assert (trades + [t])[..|trades|] == trades;
  }

  /** The profit factor; without losses it is 3 as soon as there is any trade. */
  function ProfitFactor(rs: seq<real>): real {
    if GrossLoss(rs) != 0.0 then GrossProfit(rs) / GrossLoss(rs) else if |rs| != 0 then 3.0 else 0.0
  }

  /** The report agrees with the simulated trades in every figure. */
  ghost predicate Accounts(p: Params, s: Sim, report: Report) {
    && report.rs == Returns(s.closed) && report.holds == Holds(s.closed)
    && report.wins == Wins(report.rs) && report.losses == Losses(report.rs)
    && report.grossProfit == GrossProfit(report.rs) && report.grossLoss == GrossLoss(report.rs)
    && report.totalR == Sum(report.rs)
    && report.equity == Equity(p.risk, report.rs)
    && report.maxDrawdown == MaxDrawdown(p.risk, report.rs)
    && report.profitFactor == ProfitFactor(report.rs)
    && report.openAtEnd == s.position.Held?
  }

  /** The metrics made of the running totals. */
  function MakeReport(p: Params, t: Tally, rs: seq<real>, holds: seq<int>, openAtEnd: bool): (report: Report)
    ensures t == TallyOf(p.risk, rs) ==> report.profitFactor == ProfitFactor(rs)
  {
    assert t == TallyOf(p.risk, rs) ==> t.wins + t.losses == |rs| by { WinsAndLosses(rs); }
    var pf := if t.grossLoss != 0.0 then t.grossProfit / t.grossLoss else if t.wins + t.losses != 0 then 3.0 else 0.0;
    Report(rs, holds, t.wins, t.losses, t.grossProfit, t.grossLoss, t.totalR, t.equity, t.maxDd, pf, openAtEnd)
  }

  /** What a bar does to a held position, once its exit is decided. */
  lemma HeldStep(p: Params, bars: seq<Bar>, s: Sim, i: nat, exit: Option<real>)
    requires i + 1 < |bars| && p.atrMult > 0.0 && Sane(s.position) && s.position.Held? && s.position.entryBar <= i
    requires exit == ExitPrice(p, StopFirst, bars, s.position, i)
    ensures exit.None? ==> StepBar(p, StopFirst, bars, s, i) == s
    ensures exit.Some? ==>
              StepBar(p, StopFirst, bars, s, i)
              == Sim(Flat, s.closed + [Trade(s.position.side, s.position.entryBar, i,
                                             Return(p, s.position, exit.value))])
  {
  }

  /** Every trade is told by its bars, and no signal is missed. */
  ghost predicate AllTold(p: Params, bars: seq<Bar>, s: Sim) {
    && (forall t :: t in s.closed ==> ToldByBars(p, StopFirst, bars, t))
    && (forall m: nat :: m + 1 < |bars| && EntryBar(p, bars[m]) ==> Occupied(s, m))
  }

  lemma BarsTellAll(p: Params, bars: seq<Bar>)
    requires p.atrMult > 0.0
    ensures AllTold(p, bars, Simulate(p, StopFirst, bars, LastProcessed(bars)))
  {
    var n := LastProcessed(bars);
    forall t | t in Simulate(p, StopFirst, bars, n).closed ensures ToldByBars(p, StopFirst, bars, t) {
      TradesAreTold(p, StopFirst, bars, n, t);
    }
    forall m: nat | m + 1 < |bars| && EntryBar(p, bars[m]) ensures Occupied(Simulate(p, StopFirst, bars, n), m) {
      SignalsAreTaken(p, StopFirst, bars, n, m);
    }
  }

  /** The profit factor times what was lost is what was won; without losses it is 3, or 0 if nothing was traded. */
  lemma ProfitFactorExactly(rs: seq<real>)
    ensures GrossLoss(rs) != 0.0 ==> ProfitFactor(rs) * GrossLoss(rs) == GrossProfit(rs)
    ensures GrossLoss(rs) == 0.0 ==> ProfitFactor(rs) == if rs == [] then 0.0 else 3.0
  {
  }

  /** Refuses invalid parameters; else the report is that of the simulated trades, each told by its bars. */
  method RunCanonicalBacktest(p: Params, bars: seq<Bar>) returns (report: Option<Report>)
    ensures report.Some? <==> 0.0 < p.atrMult && 0.0 < p.rr && 0.0 < p.risk <= 0.006
    ensures report.Some? ==> Accounts(p, Simulate(p, StopFirst, bars, LastProcessed(bars)), report.value)
    ensures report.Some? ==> AllTold(p, bars, Simulate(p, StopFirst, bars, LastProcessed(bars)))
  {
    if !(p.atrMult > 0.0 && p.rr > 0.0) || p.risk <= 0.0 || p.risk > MAX_RISK { return None; }
    BarsTellAll(p, bars);
    var done := RunBars(p, bars);
    report := Some(done);
  }

  /** The loop over the bars and its running totals. */
  method RunBars(p: Params, bars: seq<Bar>) returns (report: Report)
    requires ValidParams(p)
    ensures Accounts(p, Simulate(p, StopFirst, bars, LastProcessed(bars)), report)
  {
    if |bars| < 2 { return Report([], [], 0, 0, 0.0, 0.0, 0.0, START_EQUITY, 0.0, 0.0, false); }
    var tally := Tally(0, 0, 0.0, 0.0, 0.0, START_EQUITY, START_EQUITY, 0.0);
    var holds: seq<int>, rs: seq<real> := [], [];
    var position := 0;
    var entryBar: nat := 0;
    var entryPrice, stop, target, distance := 0.0, 0.0, 0.0, 0.0;
    ghost var sim := Simulate(p, StopFirst, bars, 0);
    for i := 0 to |bars| - 1
      invariant sim == Simulate(p, StopFirst, bars, i)
      invariant if position == 0 then sim.position == Flat
                else sim.position == Held(position, entryBar, entryPrice, stop, target, distance)
      invariant rs == Returns(sim.closed) && holds == Holds(sim.closed)
      invariant tally == TallyOf(p.risk, rs)
    {
      ghost var next := StepBar(p, StopFirst, bars, sim, i);
      if position == 0 {
        if Enters(p, bars[i]) {
          var entry := Enter(p, bars, i);
          position, entryBar, entryPrice := entry.side, entry.entryBar, entry.entryPrice;
          stop, target, distance := entry.stop, entry.target, entry.distance;
        }
      } else if i >= entryBar {
        var exit := ExitRaw(p, bars, i, position, entryBar, entryPrice, stop, target, distance);
        HeldStep(p, bars, sim, i, exit);
        if exit.Some? {
          var r := Return(p, Held(position, entryBar, entryPrice, stop, target, distance), exit.value);
          OneMoreTrade(sim.closed, Trade(position, entryBar, i, r));
          tally := Book(tally, r, p.risk, rs);
          rs := rs + [r];
          holds := holds + [i - entryBar + 1];
          position := 0;
        }
      }
      sim := next;
    }
    report := MakeReport(p, tally, rs, holds, position != 0);
    assert Accounts(p, sim, report);
  }

  /** The branches of the loop that decide how a held position leaves on bar `i`. */
  method ExitRaw(p: Params, bars: seq<Bar>, i: nat, position: int, entryBar: nat, entryPrice: real, stop: real,
                 target: real, distance: real)
    returns (exit: Option<real>)
    requires i + 1 < |bars|
    ensures exit == ExitPrice(p, StopFirst, bars, Held(position, entryBar, entryPrice, stop, target, distance), i)
  {
    var age := i - entryBar + 1;
    var hitStop := if position == 1 then bars[i].low <= stop else bars[i].high >= stop;
    var hitTarget := if position == 1 then bars[i].high >= target else bars[i].low <= target;
    if hitStop && hitTarget {
      exit := Some(stop);
    } else if hitStop {
      exit := Some(stop);
    } else if hitTarget {
      exit := Some(target);
    } else if bars[i].signal == -position {
      exit := Some(bars[i + 1].open);
    } else if age >= p.expiryBars {
      exit := Some(bars[i + 1].open);
    } else {
      exit := None;
    }
  }
}
