/** The tick-spread sampler: weekly segments, bounded samples with weights, and weighted quantiles. */
module Ticks {
  import opened Options

  // ------------------------------------------------------------------ segments

  /** Seven days in microseconds, the resolution of the requested bounds. */
  const SEGMENT := 604_800_000_000

  /** A bound in microseconds, rounded up to whole milliseconds. */
  function CeilMs(us: int): int {
    (us + 999) / 1000
  }

  /** Rounding up is exact for ticks stamped in whole milliseconds. */
  lemma CeilIsExact(us: int, ms: int)
    ensures CeilMs(us) <= ms <==> us <= 1000 * ms
  {
  }

  function SegmentEnd(cursor: int, end: int): int {
    if cursor + SEGMENT < end then cursor + SEGMENT else end
  }

  predicate InSegment(ms: int, from: int, upto: int) {
    CeilMs(from) <= ms < CeilMs(upto)
  }

  /** In how many of the segments from `cursor` on does this millisecond fall? */
  function SegmentsHolding(cursor: int, end: int, ms: int): nat
    decreases end - cursor
  {
    if cursor >= end then 0
    else
      (if InSegment(ms, cursor, SegmentEnd(cursor, end)) then 1 else 0)
        + SegmentsHolding(SegmentEnd(cursor, end), end, ms)
  }

  /** Every millisecond of the requested period falls in exactly one segment, and no other one in any. */
  lemma {:induction false} ExactlyOneSegment(start: int, end: int, ms: int)
    ensures SegmentsHolding(start, end, ms) == if start <= 1000 * ms < end then 1 else 0
    decreases end - start
  {
    if start < end {
      ExactlyOneSegment(SegmentEnd(start, end), end, ms);
      CeilIsExact(start, ms);
      CeilIsExact(SegmentEnd(start, end), ms);
    }
  }

  // ---------------------------------------------------------------------- ticks

  /** A tick of the feed; a price is `None` when it is not finite. */
  datatype Tick = Tick(timeMs: int, bid: Option<real>, ask: Option<real>)

  /** A two-sided quote. */
  predicate Quote(t: Tick) {
    t.bid.Some? && t.ask.Some? && t.bid.value > 0.0 && t.ask.value >= t.bid.value
  }

  predicate Counts(t: Tick, from: int, upto: int) {
    Quote(t) && t.timeMs > 0 && InSegment(t.timeMs, from, upto)
  }

  /** The valid quotes of a segment. */
  function Valid(ticks: seq<Tick>, from: int, upto: int): seq<Tick> {
    if ticks == [] then []
    else
      Valid(ticks[..|ticks| - 1], from, upto)
      + if Counts(ticks[|ticks| - 1], from, upto) then [ticks[|ticks| - 1]] else []
  }

  /** A tick with both prices, the bid positive and not above the ask, in the half-open period. */
  predicate TwoSidedIn(t: Tick, from: int, upto: int) {
    && t.bid.Some? && t.ask.Some? && 0.0 < t.bid.value <= t.ask.value
    && 0 < t.timeMs && from <= 1000 * t.timeMs < upto
  }

  /** The valid quotes are exactly the two-sided ones in the period. */
  lemma {:induction false} ValidExactly(ticks: seq<Tick>, from: int, upto: int, t: Tick)
    ensures t in Valid(ticks, from, upto) <==> t in ticks && TwoSidedIn(t, from, upto)
    ensures Counts(t, from, upto) <==> TwoSidedIn(t, from, upto)
  {
    CeilIsExact(from, t.timeMs);
    CeilIsExact(upto, t.timeMs);
    if ticks != [] { ValidExactly(ticks[..|ticks| - 1], from, upto, t); }
  }

  /** Adjacent segments share no quote and miss none. */
  lemma {:induction false} ValidAdds(ticks: seq<Tick>, a: int, b: int, c: int)
    requires a <= b <= c
    ensures |Valid(ticks, a, c)| == |Valid(ticks, a, b)| + |Valid(ticks, b, c)|
  {
    if ticks != [] {
      ValidAdds(ticks[..|ticks| - 1], a, b, c);
      var ms := ticks[|ticks| - 1].timeMs;
      CeilIsExact(a, ms);
      CeilIsExact(b, ms);
      CeilIsExact(c, ms);
    }
  }

  lemma {:induction false} NothingInNothing(ticks: seq<Tick>, a: int, b: int)
    requires b <= a
    ensures Valid(ticks, a, b) == []
  {
    if ticks != [] {
      NothingInNothing(ticks[..|ticks| - 1], a, b);
      CeilIsExact(a, ticks[|ticks| - 1].timeMs);
      CeilIsExact(b, ticks[|ticks| - 1].timeMs);
    }
  }

  /** What the terminal answers to a request for a range of ticks; `None` is an error. */
  type Feed = (int, int) -> Option<seq<Tick>>

  function TicksOf(answer: Option<seq<Tick>>): seq<Tick> {
    if answer.Some? then answer.value else []
  }

  /** The valid quotes counted over all segments from `cursor` on. */
  function TotalValid(feed: Feed, cursor: int, end: int): nat
    decreases end - cursor
  {
    if cursor >= end then 0
    else
      var upto := SegmentEnd(cursor, end);
      |Valid(TicksOf(feed(cursor, upto)), cursor, upto)| + TotalValid(feed, upto, end)
  }

  /** How many of the requests from `cursor` on fail. */
  function Failures(feed: Feed, cursor: int, end: int): nat
    decreases end - cursor
  {
    if cursor >= end then 0
    else
      var upto := SegmentEnd(cursor, end);
      (if feed(cursor, upto).None? then 1 else 0) + Failures(feed, upto, end)
  }

  /** A terminal that answers every request with at least the ticks of its history in that range
      (it may add ticks outside the range, as the real one does at the edges). */
  ghost predicate Serves(feed: Feed, history: seq<Tick>) {
    forall a, b :: feed(a, b).Some? && Valid(feed(a, b).value, a, b) == Valid(history, a, b)
  }

  /** Segment by segment, every valid quote of the period is counted exactly once. */
  lemma {:induction false} EachQuoteOnce(feed: Feed, history: seq<Tick>, start: int, end: int)
    requires Serves(feed, history)
    ensures TotalValid(feed, start, end) == |Valid(history, start, end)|
    decreases end - start
  {
    if start < end {
      var upto := SegmentEnd(start, end);
      EachQuoteOnce(feed, history, upto, end);
      ValidAdds(history, start, upto, end);
      assert feed(start, upto).Some?;
    } else {
      NothingInNothing(history, start, end);
    }
  }

  // ------------------------------------------------------------------- sampling

  const MAX_SAMPLE := 12_000

  function Take(n: nat): nat {
    if n < MAX_SAMPLE then n else MAX_SAMPLE
  }

  /** The `k`-th sampled position among `n` quotes: all of them, or evenly spread ones. */
  function SampleIndex(n: nat, k: nat): nat {
    if Take(n) == n then k else k * (n - 1) / (MAX_SAMPLE - 1)
  }

  lemma StepApart(j: nat, k: nat, m: nat)
    requires j < k
    ensures j * m + m <= k * m
  {
    assert k * m == j * m + (k - j) * m;
    assert (k - j) * m == m + (k - j - 1) * m;
  }

  lemma FloorGrows(x: nat, y: nat)
    requires x + 11_999 <= y
    ensures x / 11_999 < y / 11_999
  {
  }

  /** The sampled positions strictly increase, so none is taken twice. */
  lemma SampleIncreases(n: nat, j: nat, k: nat)
    requires j < k < Take(n)
    ensures SampleIndex(n, j) < SampleIndex(n, k)
  {
    if Take(n) != n {
      StepApart(j, k, n - 1);
      FloorGrows(j * (n - 1), k * (n - 1));
    }
  }

  /** The first and the last quote are sampled, and every position exists. */
  lemma SampleSpans(n: nat, k: nat)
    requires k < Take(n)
    ensures SampleIndex(n, 0) == 0 && SampleIndex(n, Take(n) - 1) == n - 1 && SampleIndex(n, k) < n
  {
    if k < Take(n) - 1 { SampleIncreases(n, k, Take(n) - 1); }
  }

  /** How many quotes each sampled one stands for. */
  function SampleWeight(n: nat): real
    requires n > 0
  {
    n as real / Take(n) as real
  }

  /** A sampled quote: its spread in points, its time and the number of quotes it stands for. */
  datatype Sample = Sample(spread: real, timeMs: int, weight: real)

  function SumWeights(samples: seq<Sample>): real {
    if samples == [] then 0.0 else SumWeights(samples[..|samples| - 1]) + samples[|samples| - 1].weight
  }

  lemma WeightSnoc(samples: seq<Sample>, x: Sample)
    ensures SumWeights(samples + [x]) == SumWeights(samples) + x.weight
  {
    assert (samples + [x])[..|samples|] == samples;
  }

  lemma {:induction false} WeightJoin(a: seq<Sample>, b: seq<Sample>)
    ensures SumWeights(a + b) == SumWeights(a) + SumWeights(b)
  {
    if b == [] {
      assert a + b == a;
    } else {
      var init, last := b[..|b| - 1], b[|b| - 1];
      WeightJoin(a, init);
      WeightSnoc(a + init, last);
      assert a + b == a + init + [last];
    }
  }

  /** `k` shares of the same weight. */
  function Shares(k: nat, w: real): real {
    if k == 0 then 0.0 else Shares(k - 1, w) + w
  }

  lemma {:induction false} SharesAre(k: nat, w: real)
    ensures Shares(k, w) == k as real * w
  {
    if k > 0 { SharesAre(k - 1, w); }
  }

  lemma WeightsStandForAll(n: nat)
    requires n > 0
    ensures Shares(Take(n), SampleWeight(n)) == n as real && SampleWeight(n) > 0.0
  {
    SharesAre(Take(n), SampleWeight(n));
  }

  function SampleOf(t: Tick, point: real, weight: real): Sample
    requires Quote(t) && point > 0.0
  {
    Sample((t.ask.value - t.bid.value) / point, t.timeMs, weight)
  }

  /** A sample of this tick: its time, and its spread in points. */
  predicate Samples(x: Sample, t: Tick, point: real) {
    && t.bid.Some? && t.ask.Some? && x.timeMs == t.timeMs && x.spread * point == t.ask.value - t.bid.value
    && x.weight > 0.0
  }

  lemma SampleOfTick(t: Tick, point: real, weight: real)
    requires Quote(t) && point > 0.0 && weight > 0.0
    ensures Samples(SampleOf(t, point, weight), t, point)
  {
    assert (t.ask.value - t.bid.value) / point * point == t.ask.value - t.bid.value;
  }

  /** A sample comes from a two-sided quote of the period. */
  ghost predicate FromTicks(x: Sample, ticks: seq<Tick>, from: int, upto: int, point: real) {
    exists t :: t in ticks && TwoSidedIn(t, from, upto) && Samples(x, t, point)
  }

  /** One of the requests for the period: a whole number of weeks after its start, for a week or what is left. */
  predicate Week(start: int, end: int, from: int, upto: int) {
    && start <= from < upto <= end && (from - start) % 604_800_000_000 == 0
    && (upto == from + 7 * 24 * 3600 * 1_000_000 || (upto == end && end < from + 604_800_000_000))
  }

  /** A sample comes from the answer to one of the weekly requests. */
  ghost predicate FromFeed(x: Sample, feed: Feed, start: int, end: int, point: real) {
    exists from, upto ::
      && Week(start, end, from, upto)
      && feed(from, upto).Some? && FromTicks(x, feed(from, upto).value, from, upto, point)
  }

  /** The `k`-th position lies less than one quote before its place on an even spread. */
  predicate Even(index: nat, n: nat, k: nat) {
    n <= 12_000 || index * 11_999 <= k * (n - 1) < index * 11_999 + 11_999
  }

  lemma SampleIsEven(n: nat, k: nat)
    requires k < Take(n)
    ensures Even(SampleIndex(n, k), n, k)
  {
    if Take(n) != n { FloorIsClose(k * (n - 1)); }
  }

  lemma FloorIsClose(x: nat)
    ensures x / 11_999 * 11_999 <= x < x / 11_999 * 11_999 + 11_999
  {
  }

  /** Positions that strictly increase from the first quote to the last, evenly spread. */
  ghost predicate Spread(indices: seq<nat>, n: nat) {
    && |indices| == (if n <= 12_000 then n else 12_000)
    && (forall k :: 0 <= k < |indices| ==> indices[k] < n && Even(indices[k], n, k))
    && (forall j, k :: 0 <= j < k < |indices| ==> indices[j] < indices[k])
    && (n > 0 ==> indices != [] && indices[0] == 0 && indices[|indices| - 1] == n - 1)
  }

  method SampleIndices(n: nat) returns (indices: seq<nat>)
    ensures Spread(indices, n)
  {
    indices := seq(Take(n), k requires 0 <= k < Take(n) => SampleIndex(n, k));
    forall k | 0 <= k < Take(n) ensures indices[k] < n && Even(indices[k], n, k) {
      SampleSpans(n, k);
      SampleIsEven(n, k);
    }
    forall j, k | 0 <= j < k < Take(n) ensures indices[j] < indices[k] { SampleIncreases(n, j, k); }
    if n > 0 { SampleSpans(n, 0); }
  }

  /** Sample one segment: at most 12000 quotes, whose weights add up to the number of all of them. */
  method SampleSegment(quotes: seq<Tick>, indices: seq<nat>, point: real) returns (batch: seq<Sample>)
    requires point > 0.0 && quotes != [] && forall t :: t in quotes ==> Quote(t)
    requires |indices| == Take(|quotes|) && forall k :: 0 <= k < |indices| ==> indices[k] < |quotes|
    ensures |batch| == |indices| && SumWeights(batch) == |quotes| as real
    ensures forall k :: 0 <= k < |batch| ==> batch[k] == SampleOf(quotes[indices[k]], point, SampleWeight(|quotes|))
  {
    var weight := SampleWeight(|quotes|);
    batch := [];
    for k := 0 to |indices|
      invariant |batch| == k && SumWeights(batch) == Shares(k, weight)
      invariant forall j :: 0 <= j < k ==> batch[j] == SampleOf(quotes[indices[j]], point, weight)
    {
      var x := SampleOf(quotes[indices[k]], point, weight);
      WeightSnoc(batch, x);
      batch := batch + [x];
    }
    WeightsStandForAll(|quotes|);
  }

  /** The valid quotes of one answered request, sampled. */
  method CollectSegment(ticks: seq<Tick>, from: int, upto: int, point: real) returns (batch: seq<Sample>, valid: nat)
    requires point > 0.0
    ensures valid == |Valid(ticks, from, upto)| && SumWeights(batch) == valid as real
    ensures |batch| == if valid <= 12_000 then valid else 12_000
    ensures forall k :: 0 <= k < |batch| ==> FromTicks(batch[k], ticks, from, upto, point)
  {
    var quotes := Valid(ticks, from, upto);
    valid := |quotes|;
    if quotes == [] { return [], 0; }
    forall t | t in quotes ensures t in ticks && TwoSidedIn(t, from, upto) && Quote(t) {
      ValidExactly(ticks, from, upto, t);
    }
    var indices := SampleIndices(valid);
    batch := SampleSegment(quotes, indices, point);
    WeightsStandForAll(valid);
    forall k | 0 <= k < |batch| ensures FromTicks(batch[k], ticks, from, upto, point) {
      SampleOfTick(quotes[indices[k]], point, SampleWeight(valid));
      assert quotes[indices[k]] in quotes;
    }
  }

  ghost predicate AllFromFeed(samples: seq<Sample>, feed: Feed, start: int, end: int, point: real) {
    forall k :: 0 <= k < |samples| ==> FromFeed(samples[k], feed, start, end, point)
  }

  lemma WeekIsFromFeed(samples: seq<Sample>, batch: seq<Sample>, feed: Feed, start: int, from: int, upto: int, end: int,
                       point: real)
    requires Week(start, end, from, upto) && feed(from, upto).Some? && AllFromFeed(samples, feed, start, end, point)
    requires forall k :: 0 <= k < |batch| ==> FromTicks(batch[k], feed(from, upto).value, from, upto, point)
    ensures AllFromFeed(samples + batch, feed, start, end, point)
  {
  }

  /** The loop stands at the start of a week, or at the end. */
  predicate AtWeek(start: int, end: int, cursor: int) {
    start <= cursor && (start <= end ==> cursor <= end) && (cursor < end ==> (cursor - start) % SEGMENT == 0)
  }

  lemma NextWeek(start: int, end: int, cursor: int)
    requires AtWeek(start, end, cursor) && cursor < end
    ensures Week(start, end, cursor, SegmentEnd(cursor, end)) && AtWeek(start, end, SegmentEnd(cursor, end))
  {
  }

  /** The sampling loop: it ends, counts every valid quote of every segment, its weights stand for all of them, and
      every sample is of a quote that one of the weekly requests returned. */
  method Collect(feed: Feed, start: int, end: int, point: real)
    returns (samples: seq<Sample>, totalValid: nat, errors: nat)
    requires point > 0.0
    ensures totalValid == TotalValid(feed, start, end)
    ensures SumWeights(samples) == totalValid as real
    ensures samples == [] <==> totalValid == 0
    ensures errors == Failures(feed, start, end)
    ensures AllFromFeed(samples, feed, start, end, point)
  {
    var cursor := start;
    samples, totalValid, errors := [], 0, 0;
    while cursor < end
      invariant AtWeek(start, end, cursor)
      invariant totalValid + TotalValid(feed, cursor, end) == TotalValid(feed, start, end)
      invariant SumWeights(samples) == totalValid as real
      invariant AllFromFeed(samples, feed, start, end, point)
      invariant samples == [] <==> totalValid == 0
      invariant errors + Failures(feed, cursor, end) == Failures(feed, start, end)
      decreases end - cursor
    {
      var upto := SegmentEnd(cursor, end);
      NextWeek(start, end, cursor);
      var ticks := feed(cursor, upto);
      if ticks.None? {
        errors := errors + 1;
      } else {
        var batch, valid := CollectSegment(ticks.value, cursor, upto, point);
        WeightJoin(samples, batch);
        WeekIsFromFeed(samples, batch, feed, start, cursor, upto, end, point);
        samples := samples + batch;
        totalValid := totalValid + valid;
      }
      cursor := upto;
    }
  }
}
