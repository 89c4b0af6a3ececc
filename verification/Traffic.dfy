/** The traffic windows of `internal/agent/traffic.go`: a sliding window over kernel
    counters and the rates computed from it. Times are nanoseconds; the float
    arithmetic of the source is exact here, and truncated where it truncates. The
    readings of a link come at strictly increasing times. */
module Traffic {
  import opened Text

  const SECOND := 1_000_000_000
  const RATE_WINDOW := 60 * SECOND
  const SUSTAINED_WINDOW := 300 * SECOND
  const PEAK_WINDOW := 900 * SECOND
  const WINDOW_SLACK := 15 * SECOND

  /** The least history a low figure proves anything with, as the controller has it
      (`FullHistorySeconds`). */
  const FULL_HISTORY_SECONDS := 285

  datatype Sample = Sample(at: int, rx: int, tx: int, errors: int, drops: int)

  datatype Direction = Rx | Tx

  function Bytes(s: Sample, dir: Direction): int {
    match dir case Rx => s.rx case Tx => s.tx
  }

  datatype LinkTraffic = LinkTraffic(
    historySeconds: int, rxRate: int, txRate: int, peakRxRate: int, peakTxRate: int,
    capacityMbps: Option<int>, utilization: Option<int>, sustained: Option<int>, peakUtilization: Option<int>,
    errorsPerMinute: int, dropsPerMinute: int)

  // ----- the history -----

  /** A counter went back, or nothing was read for the whole window. */
  predicate StartsOver(h: seq<Sample>, s: Sample) {
    |h| > 0 &&
    var last := h[|h| - 1];
    s.rx < last.rx || s.tx < last.tx || s.errors < last.errors || s.drops < last.drops || s.at - last.at > PEAK_WINDOW
  }

  function Trimmed(h: seq<Sample>, now: int): seq<Sample> {
    if |h| > 1 && now - h[1].at >= PEAK_WINDOW then Trimmed(h[1..], now) else h
  }

  /** Every reading since the last start over. */
  function Appended(h: seq<Sample>, s: Sample): seq<Sample> {
    (if StartsOver(h, s) then [] else h) + [s]
  }

  function Observed(h: seq<Sample>, s: Sample): seq<Sample> {
    Trimmed(Appended(h, s), s.at)
  }

  predicate InTimeOrder(readings: seq<Sample>) {
    forall i, j :: 0 <= i < j < |readings| ==> readings[i].at < readings[j].at
  }

  /** The agent's history of a link after the given readings. */
  function History(readings: seq<Sample>): seq<Sample> {
    if |readings| == 0 then [] else Observed(History(readings[..|readings| - 1]), readings[|readings| - 1])
  }

  /** What that history would be if nothing were ever trimmed. */
  function FullHistory(readings: seq<Sample>): seq<Sample> {
    if |readings| == 0 then [] else Appended(FullHistory(readings[..|readings| - 1]), readings[|readings| - 1])
  }

  predicate Follows(a: Sample, b: Sample) {
    && a.at < b.at <= a.at + PEAK_WINDOW
    && a.rx <= b.rx && a.tx <= b.tx && a.errors <= b.errors && a.drops <= b.drops
  }

  /** Times increase without a gap, counters never decrease. */
  predicate Proper(h: seq<Sample>) {
    forall i :: 0 <= i < |h| - 1 ==> Follows(h[i], h[i + 1])
  }

  /** h is what trimming left of full: a suffix of it, that reaches back over the whole of
      15 minutes if anything was cut off, and by one sample only. */
  predicate IsTrimOf(h: seq<Sample>, full: seq<Sample>) {
    && |h| <= |full| && h == full[|full| - |h|..]
    && (full != [] ==> h != [])
    && (|h| < |full| ==> h[|h| - 1].at - h[0].at >= 900_000_000_000)
    && (|h| > 1 ==> h[|h| - 1].at - h[1].at < 900_000_000_000)
  }

  lemma ProperTail(h: seq<Sample>)
    requires Proper(h) && |h| > 1
    ensures Proper(h[1..])
  {
    forall i | 0 <= i < |h[1..]| - 1
      ensures Follows(h[1..][i], h[1..][i + 1])
    {
      assert Follows(h[i + 1], h[i + 1 + 1]);
    }
  }

  lemma ProperStep(h: seq<Sample>)
    requires Proper(h) && |h| > 1
    ensures Follows(h[0], h[1])
  {
  }

  lemma UntrimmedIsTrim(h: seq<Sample>, full: seq<Sample>)
    requires |h| > 0 && |h| <= |full| && h == full[|full| - |h|..]
    requires |h| < |full| ==> h[|h| - 1].at - h[0].at >= PEAK_WINDOW
    requires |h| > 1 ==> h[|h| - 1].at - h[1].at < PEAK_WINDOW
    ensures IsTrimOf(h, full)
  {
  }

  lemma {:induction false} TrimmedIsTrim(h: seq<Sample>, now: int, full: seq<Sample>)
    requires |h| > 0 && h[|h| - 1].at == now && |h| <= |full| && h == full[|full| - |h|..] && Proper(h)
    requires |h| < |full| ==> now - h[0].at >= PEAK_WINDOW
    ensures IsTrimOf(Trimmed(h, now), full) && Proper(Trimmed(h, now))
    ensures var r := Trimmed(h, now); |r| > 0 && r[|r| - 1] == h[|h| - 1] && now - r[0].at < 2 * PEAK_WINDOW
  {
    hide Proper, IsTrimOf;
    if |h| > 1 {
      ProperStep(h);
    }
    if |h| > 1 && now - h[1].at >= PEAK_WINDOW {
      ProperTail(h);
      assert h[1..] == full[|full| - |h[1..]|..];
      TrimmedIsTrim(h[1..], now, full);
    } else {
      UntrimmedIsTrim(h, full);
    }
  }

  lemma AppendedIsProper(h: seq<Sample>, s: Sample)
    requires Proper(h) && (|h| > 0 ==> h[|h| - 1].at < s.at)
    ensures Proper(Appended(h, s))
  {
  }

  lemma AppendedIsSuffix(h: seq<Sample>, full: seq<Sample>, s: Sample)
    requires IsTrimOf(h, full) && (|full| > 0 ==> full[|full| - 1].at < s.at)
    ensures |h| > 0 <==> |full| > 0
    ensures |h| > 0 ==> h[|h| - 1] == full[|full| - 1]
    ensures var r, f := Appended(h, s), Appended(full, s);
            && 0 < |r| <= |f| && r == f[|f| - |r|..] && r[|r| - 1] == s
            && (|r| < |f| ==> s.at - r[0].at >= PEAK_WINDOW)
  {
    assert |h| > 0 ==> h[|h| - 1] == full[|full| - 1];
  }

  /** One reading keeps the history a proper trim of the full one. */
  lemma ObservedIsTrim(h: seq<Sample>, full: seq<Sample>, s: Sample)
    requires Proper(full) && IsTrimOf(h, full) && Proper(h)
    requires |full| > 0 ==> full[|full| - 1].at < s.at
    ensures IsTrimOf(Observed(h, s), Appended(full, s)) && Proper(Observed(h, s)) && Proper(Appended(full, s))
    ensures var r := Observed(h, s); |r| > 0 && r[|r| - 1] == s && s.at - r[0].at < 2 * PEAK_WINDOW
  {
    hide Trimmed, Proper, Appended, IsTrimOf;
    AppendedIsSuffix(h, full, s);
    assert |h| > 0 ==> h[|h| - 1].at < s.at;
    AppendedIsProper(h, s);
    AppendedIsProper(full, s);
    TrimmedIsTrim(Appended(h, s), s.at, Appended(full, s));
  }

  /** The history starts over with the k-th reading: a counter went back, or more than a
      quarter of an hour went by. */
  predicate BreaksAt(readings: seq<Sample>, k: int)
    requires 0 < k < |readings|
  {
    var a, b := readings[k - 1], readings[k];
    b.rx < a.rx || b.tx < a.tx || b.errors < a.errors || b.drops < a.drops || b.at - a.at > 900_000_000_000
  }

  /** The k-th reading is the first since the last break. */
  predicate IsBreakStart(readings: seq<Sample>, k: nat) {
    && (readings == [] ==> k == 0) && (readings != [] ==> k < |readings|)
    && (0 < k < |readings| ==> BreaksAt(readings, k))
    && (forall i :: k < i < |readings| ==> !BreaksAt(readings, i))
  }

  /** full is every reading since the last break, and no other. */
  predicate IsSinceBreak(full: seq<Sample>, readings: seq<Sample>) {
    && |full| <= |readings| && full == readings[|readings| - |full|..]
    && IsBreakStart(readings, |readings| - |full|)
  }

  lemma BreaksAtStays(readings: seq<Sample>, s: Sample)
    ensures forall i :: 0 < i < |readings| ==> (BreaksAt(readings + [s], i) <==> BreaksAt(readings, i))
  {
  }

  lemma BreakStartsOver(full: seq<Sample>, readings: seq<Sample>, s: Sample)
    requires |full| > 0 && |readings| > 0 && full[|full| - 1] == readings[|readings| - 1]
    ensures StartsOver(full, s) <==> BreaksAt(readings + [s], |readings|)
  {
  }

  lemma SuffixGrows(full: seq<Sample>, readings: seq<Sample>, s: Sample)
    requires |full| <= |readings| && full == readings[|readings| - |full|..]
    ensures full + [s] == (readings + [s])[|readings| - |full|..]
    ensures |full| > 0 ==> full[|full| - 1] == readings[|readings| - 1]
  {
  }

  lemma BreakStartGrows(readings: seq<Sample>, k: nat, s: Sample)
    requires IsBreakStart(readings, k)
    ensures var n := |readings|;
            IsBreakStart(readings + [s], if n > 0 && BreaksAt(readings + [s], n) then n else k)
  {
    BreaksAtStays(readings, s);
    hide BreaksAt;
  }

  lemma SinceBreakGrows(full: seq<Sample>, readings: seq<Sample>, s: Sample)
    requires IsSinceBreak(full, readings)
    ensures IsSinceBreak(Appended(full, s), readings + [s])
  {
    StartIsWithin(readings, |readings| - |full|);
    hide BreaksAt, StartsOver, IsBreakStart;
    BreakStartGrows(readings, |readings| - |full|, s);
    SuffixGrows(full, readings, s);
    SuffixGrows([], readings, s);
    if readings == [] {
      NothingStartsOver(s);
    } else {
      BreakStartsOver(full, readings, s);
    }
  }

  lemma StartIsWithin(readings: seq<Sample>, k: nat)
    requires IsBreakStart(readings, k)
    ensures readings != [] ==> k < |readings|
  {
    hide BreaksAt;
  }

  lemma NothingStartsOver(s: Sample)
    ensures !StartsOver([], s)
  {
  }

  /** Untrimmed, the history is every reading since the last break and no other. */
  lemma {:induction false} FullHistoryIsSinceBreak(readings: seq<Sample>)
    ensures IsSinceBreak(FullHistory(readings), readings)
  {
    if |readings| > 0 {
      hide IsSinceBreak, Appended;
      var n := |readings| - 1;
      FullHistoryIsSinceBreak(readings[..n]);
      SinceBreakGrows(FullHistory(readings[..n]), readings[..n], readings[n]);
      assert readings == readings[..n] + [readings[n]];
    }
  }

  /** For every sequence of readings: the history's counters never decrease, it spans
      less than twice the window, and what was trimmed off was older than the window. */
  lemma {:induction false} HistoryIsTrim(readings: seq<Sample>)
    requires InTimeOrder(readings)
    ensures IsTrimOf(History(readings), FullHistory(readings)) && |FullHistory(readings)| >= |History(readings)|
    ensures Proper(History(readings)) && Proper(FullHistory(readings))
    ensures |readings| > 0 ==>
              var h := History(readings);
              |h| > 0 && h[|h| - 1] == readings[|readings| - 1] && h[|h| - 1].at - h[0].at < 2 * PEAK_WINDOW
  {
    if |readings| > 0 {
      var k := |readings| - 1;
      HistoryIsTrim(readings[..k]);
      ObservedIsTrim(History(readings[..k]), FullHistory(readings[..k]), readings[k]);
    }
  }

  // ----- the reference samples -----

  /** The newest index at or below i that covers the window, or 0. */
  function ReferenceFrom(h: seq<Sample>, window: int, i: int): (r: nat)
    requires -1 <= i < |h| && |h| > 0
    ensures r < |h|
    decreases i + 1
  {
    if i < 0 then 0
    else if h[|h| - 1].at - h[i].at >= window - WINDOW_SLACK then i
    else ReferenceFrom(h, window, i - 1)
  }

  function Since(h: seq<Sample>, window: int): Sample
    requires |h| > 0
  {
    h[ReferenceFrom(h, window, |h| - 2)]
  }

  /** `since`: the backward scan. */
  method SinceLoop(h: seq<Sample>, window: int) returns (s: Sample)
    requires |h| > 0
    ensures s == Since(h, window)
  {
    var last := h[|h| - 1];
    var i := |h| - 2;
    while i >= 0
      invariant -1 <= i <= |h| - 2
      invariant ReferenceFrom(h, window, |h| - 2) == ReferenceFrom(h, window, i)
    {
      if last.at - h[i].at >= window - WINDOW_SLACK {
        return h[i];
      }
      i := i - 1;
    }
    return h[0];
  }

  /** The newest sample but the last that covers the window; the oldest if none does. */
  lemma {:induction false} ReferenceIsNewest(h: seq<Sample>, window: int, i: int)
    requires -1 <= i < |h| && |h| > 0
    ensures var r := ReferenceFrom(h, window, i);
            && (forall j :: r < j <= i ==> h[|h| - 1].at - h[j].at < window - WINDOW_SLACK)
            && (r == 0 || (r <= i && h[|h| - 1].at - h[r].at >= window - WINDOW_SLACK))
    decreases i + 1
  {
    if i >= 0 && h[|h| - 1].at - h[i].at < window - WINDOW_SLACK {
      ReferenceIsNewest(h, window, i - 1);
    }
  }

  lemma {:induction false} SuffixSameReference(h: seq<Sample>, full: seq<Sample>, window: int, i: int)
    requires |h| > 0 && |h| <= |full| && h == full[|full| - |h|..]
    requires -1 <= i < |h|
    requires |h| < |full| ==> i >= 0 && h[|h| - 1].at - h[0].at >= window - WINDOW_SLACK
    ensures h[ReferenceFrom(h, window, i)] == full[ReferenceFrom(full, window, |full| - |h| + i)]
    decreases i + 1
  {
    if i >= 0 {
      assert h[i] == full[|full| - |h| + i] && h[|h| - 1] == full[|full| - 1];
      if h[|h| - 1].at - h[i].at < window - WINDOW_SLACK {
        SuffixSameReference(h, full, window, i - 1);
      }
    }
  }

  /** Trimming changes no figure's reference: over any readings, each window of the
      source is measured from the same sample as it would be without trimming. */
  lemma TrimKeepsReference(readings: seq<Sample>, window: int)
    requires InTimeOrder(readings) && |readings| > 0 && window in {RATE_WINDOW, SUSTAINED_WINDOW}
    ensures |History(readings)| > 0 && |FullHistory(readings)| > 0
    ensures Since(History(readings), window) == Since(FullHistory(readings), window)
  {
    hide History, FullHistory, Proper;
    HistoryIsTrim(readings);
    var h, full := History(readings), FullHistory(readings);
    assert full != [] && IsTrimOf(h, full);
    SuffixSameReference(h, full, window, |h| - 2);
  }

  // ----- rates -----

  /** `perSecond`. */
  function PerSecond(from: int, to: int, d: int): int
    requires d > 0 && from <= to
  {
    (to - from) * SECOND / d
  }

  /** `percentOfLink`. */
  function PercentOfLink(rate: int, capacity: Option<int>): Option<int>
    requires capacity.Some? ==> capacity.value > 0
  {
    if capacity.None? then None else Some(rate * 800 / (capacity.value * 1_000_000))
  }

  function Max(a: int, b: int): int {
    if a >= b then a else b
  }

  /** Events per minute, never 0 when there was one. */
  function PerMinute(from: int, to: int, d: int): int
    requires d > 0 && from <= to
  {
    if to == from then 0 else Max(1, ((to - from) * 60 * SECOND * 1000 + 999 * d) / (1000 * d))
  }

  /** The highest rate between two readings in a row. */
  function PeakRate(h: seq<Sample>, dir: Direction): (r: nat)
    requires Proper(h)
  {
    if |h| < 2 then 0
    else
      var k := |h| - 1;
      assert Follows(h[k - 1], h[k - 1 + 1]);
      ProperPrefix(h, k);
      Max(PeakRate(h[..k], dir), PerSecond(Bytes(h[k - 1], dir), Bytes(h[k], dir), h[k].at - h[k - 1].at))
  }

  lemma ProperPrefix(h: seq<Sample>, k: nat)
    requires Proper(h) && k <= |h|
    ensures Proper(h[..k])
  {
    assert forall i :: 0 <= i < k - 1 ==> Follows(h[i], h[i + 1]);
  }

  lemma {:induction false} ProperIsMonotone(h: seq<Sample>, i: nat, j: nat)
    requires Proper(h) && i <= j < |h|
    ensures h[i].rx <= h[j].rx && h[i].tx <= h[j].tx && h[i].errors <= h[j].errors && h[i].drops <= h[j].drops
    ensures h[i].at <= h[j].at && (i < j ==> h[i].at < h[j].at)
  {
    if i < j {
      ProperIsMonotone(h, i, j - 1);
      assert Follows(h[j - 1], h[j - 1 + 1]);
    }
  }

  /** `trafficOf`. */
  function TrafficOf(h: seq<Sample>, capacity: Option<int>): Option<LinkTraffic>
    requires Proper(h) && (capacity.Some? ==> capacity.value > 0)
  {
    if |h| < 2 then None
    else
      var last := h[|h| - 1];
      var i, j := ReferenceFrom(h, RATE_WINDOW, |h| - 2), ReferenceFrom(h, SUSTAINED_WINDOW, |h| - 2);
      ReferenceIsNewest(h, RATE_WINDOW, |h| - 2);
      ReferenceIsNewest(h, SUSTAINED_WINDOW, |h| - 2);
      ProperIsMonotone(h, i, |h| - 1);
      ProperIsMonotone(h, j, |h| - 1);
      var recent, sustained := h[i], h[j];
      var rx, tx := PerSecond(recent.rx, last.rx, last.at - recent.at),
          PerSecond(recent.tx, last.tx, last.at - recent.at);
      var d := last.at - sustained.at;
      Some(LinkTraffic(
             (last.at - h[0].at) / SECOND, rx, tx, PeakRate(h, Rx), PeakRate(h, Tx),
             capacity,
             PercentOfLink(Max(rx, tx), capacity),
             if d < SUSTAINED_WINDOW - WINDOW_SLACK then None
             else PercentOfLink(Max(PerSecond(sustained.rx, last.rx, d), PerSecond(sustained.tx, last.tx, d)),
                 capacity),
             PercentOfLink(Max(PeakRate(h, Rx), PeakRate(h, Tx)), capacity),
             PerMinute(sustained.errors, last.errors, d), PerMinute(sustained.drops, last.drops, d)))
  }

  lemma FloorBound(x: int, d: int, p: int)
    requires d > 0
    ensures x / d <= p <==> x < (p + 1) * d
  {
    var q, r := x / d, x % d;
    assert x == q * d + r && 0 <= r < d;
    if q <= p {
      assert q * d <= p * d;
    } else {
      assert q * d >= (p + 1) * d;
    }
  }

  lemma {:induction false} PeakCovers(h: seq<Sample>, dir: Direction, k: nat)
    requires Proper(h) && 0 < k < |h|
    ensures Follows(h[k - 1], h[k])
    ensures PerSecond(Bytes(h[k - 1], dir), Bytes(h[k], dir), h[k].at - h[k - 1].at) <= PeakRate(h, dir)
    decreases |h|
  {
    assert Follows(h[k - 1], h[k - 1 + 1]);
    if k < |h| - 1 {
      ProperPrefix(h, |h| - 1);
      PeakCovers(h[..|h| - 1], dir, k);
    }
  }

  lemma AddBelow(x: int, d: int, y: int, e: int, p: int)
    requires x < p * d && y < p * e
    ensures x + y < p * (d + e)
  {
  }

  /** The telescoping step: over any stretch of the history the bytes stay below one
      more than the peak per second. */
  lemma {:induction false} BytesStayBelowPeak(h: seq<Sample>, dir: Direction, i: nat, j: nat)
    requires Proper(h) && i < j < |h|
    ensures (Bytes(h[j], dir) - Bytes(h[i], dir)) * SECOND < (PeakRate(h, dir) + 1) * (h[j].at - h[i].at)
    decreases j
  {
    hide PeakRate;
    var p := PeakRate(h, dir) + 1;
    PeakCovers(h, dir, j);
    var x, d := (Bytes(h[j], dir) - Bytes(h[j - 1], dir)) * SECOND, h[j].at - h[j - 1].at;
    FloorBound(x, d, p - 1);
    if i < j - 1 {
      BytesStayBelowPeak(h, dir, i, j - 1);
      var y, e := (Bytes(h[j - 1], dir) - Bytes(h[i], dir)) * SECOND, h[j - 1].at - h[i].at;
      AddBelow(x, d, y, e, p);
    }
  }

  /** No average over a stretch of the history exceeds the peak. */
  lemma AverageIsBelowPeak(h: seq<Sample>, dir: Direction, i: nat)
    requires Proper(h) && i < |h| - 1
    ensures h[i].at < h[|h| - 1].at && Bytes(h[i], dir) <= Bytes(h[|h| - 1], dir)
    ensures PerSecond(Bytes(h[i], dir), Bytes(h[|h| - 1], dir), h[|h| - 1].at - h[i].at) <= PeakRate(h, dir)
  {
    var j := |h| - 1;
    ProperIsMonotone(h, i, j);
    BytesStayBelowPeak(h, dir, i, j);
    FloorBound((Bytes(h[j], dir) - Bytes(h[i], dir)) * SECOND, h[j].at - h[i].at, PeakRate(h, dir));
  }

  lemma PercentIsMonotone(a: int, b: int, capacity: int)
    requires capacity > 0 && a <= b
    ensures a * 800 / (capacity * 1_000_000) <= b * 800 / (capacity * 1_000_000)
  {
    var d := capacity * 1_000_000;
    FloorBound(b * 800, d, b * 800 / d);
    FloorBound(a * 800, d, b * 800 / d);
  }

  lemma RatesAreBelowPeak(h: seq<Sample>, capacity: Option<int>)
    requires Proper(h) && |h| >= 2 && (capacity.Some? ==> capacity.value > 0)
    ensures var t := TrafficOf(h, capacity).value; t.rxRate <= t.peakRxRate && t.txRate <= t.peakTxRate
  {
    hide PercentOfLink, PerMinute, PeakRate;
    var i := ReferenceFrom(h, RATE_WINDOW, |h| - 2);
    ReferenceIsNewest(h, RATE_WINDOW, |h| - 2);
    AverageIsBelowPeak(h, Rx, i);
    AverageIsBelowPeak(h, Tx, i);
  }

  lemma UtilizationIsBelowPeak(h: seq<Sample>, capacity: Option<int>)
    requires Proper(h) && |h| >= 2 && (capacity.Some? ==> capacity.value > 0)
    ensures var t := TrafficOf(h, capacity).value;
            && (t.utilization.Some? <==> capacity.Some?) && (t.peakUtilization.Some? <==> capacity.Some?)
            && (t.utilization.Some? ==> t.utilization.value <= t.peakUtilization.value)
  {
    RatesAreBelowPeak(h, capacity);
    hide PerMinute, PeakRate, PerSecond;
    var t := TrafficOf(h, capacity).value;
    if capacity.Some? {
      PercentIsMonotone(Max(t.rxRate, t.txRate), Max(t.peakRxRate, t.peakTxRate), capacity.value);
    }
  }

  lemma SustainedIsBelowPeak(h: seq<Sample>, capacity: Option<int>)
    requires Proper(h) && |h| >= 2 && (capacity.Some? ==> capacity.value > 0)
    ensures var t := TrafficOf(h, capacity).value;
            t.sustained.Some? ==> t.peakUtilization.Some? && t.sustained.value <= t.peakUtilization.value
  {
    hide PerMinute, PeakRate;
    var j, last := ReferenceFrom(h, SUSTAINED_WINDOW, |h| - 2), h[|h| - 1];
    ReferenceIsNewest(h, SUSTAINED_WINDOW, |h| - 2);
    AverageIsBelowPeak(h, Rx, j);
    AverageIsBelowPeak(h, Tx, j);
    if capacity.Some? {
      PercentIsMonotone(
        Max(PerSecond(h[j].rx, last.rx, last.at - h[j].at), PerSecond(h[j].tx, last.tx, last.at - h[j].at)),
        Max(PeakRate(h, Rx), PeakRate(h, Tx)), capacity.value);
    }
  }

  /** For every history the agent can build, no recent rate exceeds its peak and
      neither utilization exceeds the peak utilization, truncation included. */
  lemma RecentIsBelowPeak(readings: seq<Sample>, capacity: Option<int>)
    requires InTimeOrder(readings) && (capacity.Some? ==> capacity.value > 0)
    ensures Proper(History(readings))
    ensures var t := TrafficOf(History(readings), capacity);
            t.Some? ==>
              && t.value.rxRate <= t.value.peakRxRate && t.value.txRate <= t.value.peakTxRate
              && (t.value.utilization.Some? <==> capacity.Some?) && (t.value.peakUtilization.Some? <==> capacity.Some?)
              && (t.value.utilization.Some? ==> t.value.utilization.value <= t.value.peakUtilization.value)
              && (t.value.sustained.Some? ==> t.value.sustained.value <= t.value.peakUtilization.value)
  {
    hide History;
    HistoryIsTrim(readings);
    var h := History(readings);
    if |h| >= 2 {
      RatesAreBelowPeak(h, capacity);
      UtilizationIsBelowPeak(h, capacity);
      SustainedIsBelowPeak(h, capacity);
    }
  }

  // ----- what the figures are -----

  /** The newest sample before the last that is at least so old, seen from the last; the
      oldest if none is. */
  predicate IsReference(h: seq<Sample>, i: nat, age: int) {
    && i < |h| - 1
    && (forall j :: i < j < |h| - 1 ==> h[|h| - 1].at - h[j].at < age)
    && (i > 0 ==> h[|h| - 1].at - h[i].at >= age)
  }

  lemma ReferenceIsUnique(h: seq<Sample>, window: int, i: nat)
    requires |h| >= 2 && IsReference(h, i, window - WINDOW_SLACK)
    ensures i == ReferenceFrom(h, window, |h| - 2)
  {
    ReferenceIsNewest(h, window, |h| - 2);
  }

  /** q is x divided by d, rounded down. */
  predicate IsFloor(q: int, x: int, d: int) {
    q * d <= x < (q + 1) * d
  }

  lemma FloorIs(x: int, d: int)
    requires d > 0
    ensures IsFloor(x / d, x, d)
  {
    assert x == x / d * d + x % d;
  }

  /** p is the percentage of the capacity, rounded down, that the faster direction fills. */
  predicate IsPercent(p: int, rx: int, tx: int, capacity: int) {
    && rx * 800 < (p + 1) * (capacity * 1_000_000) && tx * 800 < (p + 1) * (capacity * 1_000_000)
    && (p * (capacity * 1_000_000) <= rx * 800 || p * (capacity * 1_000_000) <= tx * 800)
  }

  lemma PercentIs(rx: int, tx: int, capacity: Option<int>)
    requires capacity.Some? ==> capacity.value > 0
    ensures PercentOfLink(Max(rx, tx), capacity).Some? <==> capacity.Some?
    ensures capacity.Some? ==> IsPercent(PercentOfLink(Max(rx, tx), capacity).value, rx, tx, capacity.value)
  {
    if capacity.Some? {
      FloorIs(Max(rx, tx) * 800, capacity.value * 1_000_000);
    }
  }

  /** The recent rates are the bytes per second since the reference a minute back, less the
      slack of 15 seconds, and the utilization is the share of the faster one. */
  lemma RecentFigures(h: seq<Sample>, capacity: Option<int>, i: nat)
    requires Proper(h) && |h| >= 2 && (capacity.Some? ==> capacity.value > 0) && IsReference(h, i, 45_000_000_000)
    ensures var t, from, last := TrafficOf(h, capacity).value, h[i], h[|h| - 1];
            && from.at < last.at
            && IsFloor(t.rxRate, (last.rx - from.rx) * 1_000_000_000, last.at - from.at)
            && IsFloor(t.txRate, (last.tx - from.tx) * 1_000_000_000, last.at - from.at)
            && (t.utilization.Some? <==> capacity.Some?)
            && (capacity.Some? ==> IsPercent(t.utilization.value, t.rxRate, t.txRate, capacity.value))
            && t.capacityMbps == capacity && IsFloor(t.historySeconds, last.at - h[0].at, 1_000_000_000)
  {
    hide PercentOfLink, PerMinute, PeakRate, IsFloor, IsPercent;
    ReferenceIsUnique(h, RATE_WINDOW, i);
    ProperIsMonotone(h, i, |h| - 1);
    var from, last := h[i], h[|h| - 1];
    FloorIs((last.rx - from.rx) * SECOND, last.at - from.at);
    FloorIs((last.tx - from.tx) * SECOND, last.at - from.at);
    FloorIs(last.at - h[0].at, SECOND);
    var t := TrafficOf(h, capacity).value;
    PercentIs(t.rxRate, t.txRate, capacity);
  }

  /** The sustained utilization is the share of the faster direction since the reference five
      minutes back, less the slack, and is there if that reference is as old as that. */
  lemma SustainedFigure(h: seq<Sample>, capacity: Option<int>, j: nat, rx: int, tx: int)
    requires Proper(h) && |h| >= 2 && (capacity.Some? ==> capacity.value > 0) && IsReference(h, j, 285_000_000_000)
    requires var from, last := h[j], h[|h| - 1];
             && IsFloor(rx, (last.rx - from.rx) * 1_000_000_000, last.at - from.at)
             && IsFloor(tx, (last.tx - from.tx) * 1_000_000_000, last.at - from.at)
    ensures var t := TrafficOf(h, capacity).value;
            && (t.sustained.Some? <==> capacity.Some? && h[|h| - 1].at - h[j].at >= 285_000_000_000)
            && (t.sustained.Some? ==> IsPercent(t.sustained.value, rx, tx, capacity.value))
  {
    hide PercentOfLink, PerMinute, PeakRate, IsFloor, IsPercent;
    ReferenceIsUnique(h, SUSTAINED_WINDOW, j);
    ProperIsMonotone(h, j, |h| - 1);
    var from, last := h[j], h[|h| - 1];
    var d := last.at - from.at;
    FloorIs((last.rx - from.rx) * SECOND, d);
    FloorIs((last.tx - from.tx) * SECOND, d);
    FloorIsUnique(rx, PerSecond(from.rx, last.rx, d), (last.rx - from.rx) * SECOND, d);
    FloorIsUnique(tx, PerSecond(from.tx, last.tx, d), (last.tx - from.tx) * SECOND, d);
    PercentIs(rx, tx, capacity);
  }

  lemma FloorIsUnique(p: int, q: int, x: int, d: int)
    requires d > 0 && IsFloor(p, x, d) && IsFloor(q, x, d)
    ensures p == q
  {
    FloorBound(x, d, p);
    FloorBound(x, d, p - 1);
    FloorBound(x, d, q);
    FloorBound(x, d, q - 1);
  }

  /** n events per minute: none for none, and otherwise at least one, and the figure rounded
      up from a thousandth on. */
  predicate IsPerMinute(n: int, events: int, d: int) {
    if events == 0 then n == 0
    else
      && n >= 1
      && events * 60_000_000_000_000 + 999 * d < (n + 1) * (1000 * d)
      && (n == 1 || n * (1000 * d) <= events * 60_000_000_000_000 + 999 * d)
  }

  lemma PerMinuteIs(from: int, to: int, d: int)
    requires d > 0 && from <= to
    ensures IsPerMinute(PerMinute(from, to, d), to - from, d)
  {
    var x := (to - from) * 60 * SECOND * 1000 + 999 * d;
    FloorIs(x, 1000 * d);
    if to != from && x / (1000 * d) < 1 {
      FloorBound(x, 1000 * d, 0);
    }
  }

  /** Errors and drops are counted over the sustained window. */
  lemma CountFigures(h: seq<Sample>, capacity: Option<int>, j: nat)
    requires Proper(h) && |h| >= 2 && (capacity.Some? ==> capacity.value > 0) && IsReference(h, j, 285_000_000_000)
    ensures var t, from, last := TrafficOf(h, capacity).value, h[j], h[|h| - 1];
            && IsPerMinute(t.errorsPerMinute, last.errors - from.errors, last.at - from.at)
            && IsPerMinute(t.dropsPerMinute, last.drops - from.drops, last.at - from.at)
  {
    hide PercentOfLink, PerMinute, PeakRate, IsPerMinute, PerSecond;
    ReferenceIsUnique(h, SUSTAINED_WINDOW, j);
    ProperIsMonotone(h, j, |h| - 1);
    PerMinuteIs(h[j].errors, h[|h| - 1].errors, h[|h| - 1].at - h[j].at);
    PerMinuteIs(h[j].drops, h[|h| - 1].drops, h[|h| - 1].at - h[j].at);
  }

  /** The rate between two readings in a row. */
  predicate IsRate(r: int, h: seq<Sample>, dir: Direction, k: nat)
    requires 0 < k < |h|
  {
    var bytes := match dir case Rx => h[k].rx - h[k - 1].rx case Tx => h[k].tx - h[k - 1].tx;
    IsFloor(r, bytes * 1_000_000_000, h[k].at - h[k - 1].at)
  }

  lemma RateIs(h: seq<Sample>, dir: Direction, k: nat)
    requires Proper(h) && 0 < k < |h|
    ensures Follows(h[k - 1], h[k])
    ensures IsRate(PerSecond(Bytes(h[k - 1], dir), Bytes(h[k], dir), h[k].at - h[k - 1].at), h, dir, k)
  {
    assert Follows(h[k - 1], h[k - 1 + 1]);
    FloorIs((Bytes(h[k], dir) - Bytes(h[k - 1], dir)) * SECOND, h[k].at - h[k - 1].at);
  }

  lemma PeakGrows(h: seq<Sample>, dir: Direction)
    requires Proper(h) && |h| >= 2
    ensures var n := |h| - 1;
            && Proper(h[..n]) && Follows(h[n - 1], h[n])
            && PeakRate(h, dir) == Max(PeakRate(h[..n], dir),
                                       PerSecond(Bytes(h[n - 1], dir), Bytes(h[n], dir), h[n].at - h[n - 1].at))
    ensures |h| == 2 ==> PeakRate(h[..1], dir) == 0
  {
    ProperPrefix(h, |h| - 1);
    assert Follows(h[|h| - 2], h[|h| - 2 + 1]);
  }

  lemma {:induction false} PeakIsReached(h: seq<Sample>, dir: Direction) returns (k: nat)
    requires Proper(h) && |h| >= 2
    ensures 0 < k < |h| && IsRate(PeakRate(h, dir), h, dir, k)
    decreases |h|
  {
    hide IsFloor, PeakRate, PerSecond, Proper;
    var n := |h| - 1;
    RateIs(h, dir, n);
    PeakGrows(h, dir);
    k := n;
    if n >= 2 && PeakRate(h, dir) == PeakRate(h[..n], dir) {
      k := PeakIsReached(h[..n], dir);
      assert h[..n][k] == h[k] && h[..n][k - 1] == h[k - 1];
    } else if n == 1 {
      RateIsNatural(h, dir, n, PerSecond(Bytes(h[n - 1], dir), Bytes(h[n], dir), h[n].at - h[n - 1].at));
    }
  }

  lemma FloorIsNatural(q: int, x: int, d: int)
    requires d > 0 && x >= 0 && IsFloor(q, x, d)
    ensures q >= 0
  {
    FloorBound(x, d, -1);
    FloorBound(x, d, q);
  }

  lemma RateIsNatural(h: seq<Sample>, dir: Direction, k: nat, r: int)
    requires 0 < k < |h| && Follows(h[k - 1], h[k]) && IsRate(r, h, dir, k)
    ensures r >= 0
  {
    hide IsFloor;
    var bytes := match dir case Rx => h[k].rx - h[k - 1].rx case Tx => h[k].tx - h[k - 1].tx;
    FloorIsNatural(r, bytes * 1_000_000_000, h[k].at - h[k - 1].at);
  }

  /** The peak of a direction is the rate of some two readings in a row, and no two in a row
      have a higher one; the peak utilization is the share of the higher peak. */
  lemma PeakFigures(h: seq<Sample>, capacity: Option<int>) returns (rx: nat, tx: nat)
    requires Proper(h) && |h| >= 2 && (capacity.Some? ==> capacity.value > 0)
    ensures 0 < rx < |h| && 0 < tx < |h|
    ensures var t := TrafficOf(h, capacity).value;
            && IsRate(t.peakRxRate, h, Rx, rx) && IsRate(t.peakTxRate, h, Tx, tx)
            && (forall k, r :: 0 < k < |h| && IsRate(r, h, Rx, k) ==> r <= t.peakRxRate)
            && (forall k, r :: 0 < k < |h| && IsRate(r, h, Tx, k) ==> r <= t.peakTxRate)
            && (t.peakUtilization.Some? <==> capacity.Some?)
            && (capacity.Some? ==> IsPercent(t.peakUtilization.value, t.peakRxRate, t.peakTxRate, capacity.value))
  {
    hide PercentOfLink, PerMinute, PeakRate, IsFloor, IsPercent, PerSecond, ReferenceFrom;
    rx := PeakIsReached(h, Rx);
    tx := PeakIsReached(h, Tx);
    PercentIs(PeakRate(h, Rx), PeakRate(h, Tx), capacity);
    forall k, r, dir | 0 < k < |h| && IsRate(r, h, dir, k)
      ensures r <= PeakRate(h, dir)
    {
      RateIs(h, dir, k);
      PeakCovers(h, dir, k);
      RateIsUnique(h, dir, k, r, PerSecond(Bytes(h[k - 1], dir), Bytes(h[k], dir), h[k].at - h[k - 1].at));
    }
  }

  lemma RateIsUnique(h: seq<Sample>, dir: Direction, k: nat, p: int, q: int)
    requires 0 < k < |h| && Follows(h[k - 1], h[k]) && IsRate(p, h, dir, k) && IsRate(q, h, dir, k)
    ensures p == q
  {
    hide IsFloor;
    var bytes := match dir case Rx => h[k].rx - h[k - 1].rx case Tx => h[k].tx - h[k - 1].tx;
    FloorIsUnique(p, q, bytes * 1_000_000_000, h[k].at - h[k - 1].at);
  }

  /** With a known capacity the sustained figure is there exactly when the history is
      as long as the controller asks for before it believes a low one. */
  lemma SustainedIffFullHistory(h: seq<Sample>, capacity: Option<int>)
    requires Proper(h) && (capacity.Some? ==> capacity.value > 0) && |h| >= 2
    ensures var t := TrafficOf(h, capacity).value;
            t.sustained.Some? <==> capacity.Some? && t.historySeconds >= 285
  {
    hide PeakRate, PerSecond, PercentOfLink, PerMinute;
    var last := h[|h| - 1];
    var j := ReferenceFrom(h, SUSTAINED_WINDOW, |h| - 2);
    ReferenceIsNewest(h, SUSTAINED_WINDOW, |h| - 2);
    ProperIsMonotone(h, 0, j);
    FloorBound(last.at - h[0].at, SECOND, FULL_HISTORY_SECONDS - 1);
    var t := TrafficOf(h, capacity).value;
    assert t.historySeconds == (last.at - h[0].at) / SECOND;
    assert t.sustained.Some? <==> capacity.Some? && last.at - h[j].at >= SUSTAINED_WINDOW - WINDOW_SLACK by {
      PercentIsThere(capacity);
    }
  }

  lemma PercentIsThere(capacity: Option<int>)
    requires capacity.Some? ==> capacity.value > 0
    ensures forall rate :: PercentOfLink(rate, capacity).Some? <==> capacity.Some?
  {
  }

  /** An error or a drop in the window is never rounded away, and none is made up. */
  lemma CountsAreNotRoundedAway(h: seq<Sample>, capacity: Option<int>)
    requires Proper(h) && (capacity.Some? ==> capacity.value > 0) && |h| >= 2
    ensures var t, from, last := TrafficOf(h, capacity).value, Since(h, SUSTAINED_WINDOW), h[|h| - 1];
            && (t.errorsPerMinute > 0 <==> last.errors != from.errors)
            && (t.dropsPerMinute > 0 <==> last.drops != from.drops)
  {
    hide PeakRate, PerSecond, PercentOfLink;
  }

  // ----- the loops -----

  /** `trafficOf`: the figures as computed, the peaks by the accumulating loop. */
  method ComputeTraffic(h: seq<Sample>, capacity: Option<int>) returns (t: Option<LinkTraffic>)
    requires Proper(h) && (capacity.Some? ==> capacity.value > 0)
    ensures t == TrafficOf(h, capacity)
  {
    hide PerMinute, PercentOfLink, PerSecond;
    if |h| < 2 {
      return None;
    }
    var last := h[|h| - 1];
    var peakRx, peakTx := 0, 0;
    for i := 1 to |h|
      invariant Proper(h[..i])
      invariant peakRx == PeakRate(h[..i], Rx) && peakTx == PeakRate(h[..i], Tx)
    {
      ProperPrefix(h, i + 1);
      assert Follows(h[i - 1], h[i - 1 + 1]);
      assert h[..i + 1][..i] == h[..i];
      var d := h[i].at - h[i - 1].at;
      if d > 0 {
        peakRx := Max(peakRx, PerSecond(h[i - 1].rx, h[i].rx, d));
        peakTx := Max(peakTx, PerSecond(h[i - 1].tx, h[i].tx, d));
      }
    }
    assert h[..|h|] == h;
    var recent := SinceLoop(h, RATE_WINDOW);
    var sustained := SinceLoop(h, SUSTAINED_WINDOW);
    SinceIsEarlier(h, RATE_WINDOW);
    SinceIsEarlier(h, SUSTAINED_WINDOW);
    var rx, tx, util, sust := 0, 0, None, None;
    var d := last.at - recent.at;
    if d > 0 {
      rx, tx := PerSecond(recent.rx, last.rx, d), PerSecond(recent.tx, last.tx, d);
    }
    util := PercentOfLink(Max(rx, tx), capacity);
    d := last.at - sustained.at;
    if d >= SUSTAINED_WINDOW - WINDOW_SLACK {
      sust := PercentOfLink(Max(PerSecond(sustained.rx, last.rx, d), PerSecond(sustained.tx, last.tx, d)), capacity);
    }
    t := Some(LinkTraffic(
                (last.at - h[0].at) / SECOND, rx, tx, peakRx, peakTx, capacity, util, sust,
                PercentOfLink(Max(peakRx, peakTx), capacity),
                PerMinute(sustained.errors, last.errors, d), PerMinute(sustained.drops, last.drops, d)));
  }

  lemma SinceIsEarlier(h: seq<Sample>, window: int)
    requires Proper(h) && |h| >= 2
    ensures var s, last := Since(h, window), h[|h| - 1];
            s.at < last.at && s.rx <= last.rx && s.tx <= last.tx && s.errors <= last.errors && s.drops <= last.drops
  {
    ReferenceIsNewest(h, window, |h| - 2);
    ProperIsMonotone(h, ReferenceFrom(h, window, |h| - 2), |h| - 1);
  }

  /** The trimming loop of `observe`. */
  method TrimLoop(h0: seq<Sample>, now: int) returns (h: seq<Sample>)
    ensures h == Trimmed(h0, now)
  {
    h := h0;
    while |h| > 1 && now - h[1].at >= PEAK_WINDOW
      invariant Trimmed(h, now) == Trimmed(h0, now)
      decreases |h|
    {
      h := h[1..];
    }
  }

  /** A link's history, and the one it was trimmed from. */
  predicate LinkOk(h: seq<Sample>, full: seq<Sample>) {
    full != [] && Proper(full) && Proper(h) && IsTrimOf(h, full)
  }

  lemma ReadingKeepsLinkOk(h: seq<Sample>, full: seq<Sample>, s: Sample)
    requires (h == [] && full == []) || LinkOk(h, full)
    requires |h| > 0 ==> h[|h| - 1].at < s.at
    ensures LinkOk(Observed(h, s), Appended(full, s)) && Proper(Observed(h, s))
  {
    assert |h| > 0 ==> h[|h| - 1] == full[|full| - 1];
    ObservedIsTrim(h, full, s);
  }

  /** `trafficWindows`: each link's readings, and beside them the readings that would
      be there without trimming. */
  class TrafficWindows {
    var history: map<string, seq<Sample>>
    ghost var full: map<string, seq<Sample>>

    ghost predicate Valid()
      reads this
    {
      history.Keys == full.Keys &&
      forall n :: n in history ==> LinkOk(history[n], full[n])
    }

    constructor ()
      ensures Valid() && history == map[]
    {
      history, full := map[], map[];
    }

    function Of(m: map<string, seq<Sample>>, name: string): seq<Sample> {
      if name in m then m[name] else []
    }

    /** `observe`. A failed reading leaves the history as it was. */
    method Observe(name: string, capacity: Option<int>, reading: Option<Sample>) returns (t: Option<LinkTraffic>)
      requires Valid() && (capacity.Some? ==> capacity.value > 0)
      requires reading.Some? && |Of(history, name)| > 0 ==>
                 Of(history, name)[|Of(history, name)| - 1].at < reading.value.at
      modifies this
      ensures Valid()
      ensures reading.None? ==> history == old(history) && full == old(full) && t == None
      ensures reading.Some? ==>
                && history == old(history)[name := Observed(Of(old(history), name), reading.value)]
                && full == old(full)[name := Appended(Of(old(full), name), reading.value)]
                && Proper(history[name]) && t == TrafficOf(history[name], capacity)
                && (t.Some? <==> |history[name]| >= 2)
    {
      hide LinkOk, Proper, Trimmed, StartsOver, PeakRate, PerSecond, PerMinute, PercentOfLink, ReferenceFrom;
      if reading.None? {
        return None;
      }
      var s := reading.value;
      var h := Of(history, name);
      ghost var f := Of(full, name);
      ReadingKeepsLinkOk(h, f, s);
      if StartsOver(h, s) {
        h := [];
      }
      h := TrimLoop(h + [s], s.at);
      t := ComputeTraffic(h, capacity);
      history, full := history[name := h], full[name := Appended(f, s)];
    }
  }
}
