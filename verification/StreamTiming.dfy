/**
 The arithmetic of the audio HAL streams (system/audio_bluetooth_hw/stream_apis.cc): latency,
 presentation and render positions, and the pacing of writes that transfer nothing.
 */
module StreamTiming {
  import opened Options
  import opened MachineInt

  const MINIMUM_DELAY_MS: int := 50
  const MAXIMUM_DELAY_MS: int := 1000
  const EXTRA_AUDIO_SYNC_MS: int := 200

  // ----- latency

  /** The whole frames in an interval. */
  function FrameCount(microseconds: nat, sampleRate: nat): (frames: nat)
    ensures 1000000 * frames <= microseconds * sampleRate < 1000000 * (frames + 1)
  {
    microseconds * sampleRate / 1000000
  }

  /** How long the frames of one tick last, in milliseconds. */
  function FramesMs(framesCount: nat, sampleRate: nat): nat
    requires sampleRate > 0
  {
    framesCount * 1000 / sampleRate
  }

  /** The delay to report, given what the stack reported in nanoseconds if it could be asked. */
  function DelayMs(reportNs: Option<nat>, framesCount: nat, sampleRate: nat): nat
    requires sampleRate > 0
  {
    if reportNs.Some? && MINIMUM_DELAY_MS < reportNs.value / 1000000 < MAXIMUM_DELAY_MS then reportNs.value / 1000000
    else FramesMs(framesCount, sampleRate) + EXTRA_AUDIO_SYNC_MS
  }

  /** A quotient is at most any number whose multiple covers the dividend. */
  lemma QuotientAtMost(a: nat, b: nat, q: int)
    requires b > 0 && a < (q + 1) * b
    ensures a / b <= q
  {
    var d := a / b;
    assert d * b <= a;
    MultipleGap(d - q, b);
    assert (d - q) * b == d * b - q * b;
  }

  lemma QuotientAtLeast(a: nat, b: nat, q: int)
    requires b > 0 && q * b <= a
    ensures q <= a / b
  {
    var d := a / b;
    assert a < (d + 1) * b by { assert a == d * b + a % b; }
    MultipleGap(q - d, b);
    assert (q - d) * b == q * b - d * b;
  }

  lemma ScaledFrames(x: nat, m: int, k: int, rate: int)
    requires x == 1000 * m + k && 0 <= k <= 999 * rate && rate > 0
    ensures x / 1000000 * 1000 < m + rate
    ensures rate >= 1000 ==> m - rate <= x / 1000000 * 1000
  {
  }

  lemma SplitInterval(ms: int, k: int, rate: int)
    requires 0 <= k < 1000 && rate > 0
    ensures (ms * 1000 + k) * rate == 1000 * (ms * rate) + k * rate
    ensures 0 <= k * rate <= 999 * rate
    ensures (ms + 1) * rate == ms * rate + rate && (ms - 1) * rate == ms * rate - rate
  {
  }

  /** The frames of an interval, scaled back, against the interval in whole milliseconds. */
  lemma FrameBounds(intervalUs: nat, sampleRate: nat)
    requires sampleRate > 0
    ensures FrameCount(intervalUs, sampleRate) * 1000 < (intervalUs / 1000 + 1) * sampleRate
    ensures sampleRate >= 1000 ==> (intervalUs / 1000 - 1) * sampleRate <= FrameCount(intervalUs, sampleRate) * 1000
  {
    var ms, k := intervalUs / 1000, intervalUs % 1000;
    SplitInterval(ms, k, sampleRate);
    ScaledFrames(intervalUs * sampleRate, ms * sampleRate, k * sampleRate, sampleRate);
  }

  /** Counting the frames of an interval and timing them again loses time, but never gains any;
      at sample rates from a kilohertz it loses at most a millisecond. */
  lemma FrameRoundTrip(intervalUs: nat, sampleRate: nat)
    requires sampleRate > 0
    ensures FramesMs(FrameCount(intervalUs, sampleRate), sampleRate) <= intervalUs / 1000
    ensures sampleRate >= 1000 ==> intervalUs / 1000 - 1 <= FramesMs(FrameCount(intervalUs, sampleRate), sampleRate)
  {
    hide FrameCount;
    FrameBounds(intervalUs, sampleRate);
    QuotientAtMost(FrameCount(intervalUs, sampleRate) * 1000, sampleRate, intervalUs / 1000);
    if sampleRate >= 1000 {
      QuotientAtLeast(FrameCount(intervalUs, sampleRate) * 1000, sampleRate, intervalUs / 1000 - 1);
    }
  }

  /** The latency is what the stack reports, in whole milliseconds, if and only if it reports at least 51
      and less than 1000 ms; otherwise it is a fallback of 200 ms plus at most the data interval the
      stream was opened with. */
  lemma LatencyBounds(reportNs: Option<nat>, intervalUs: nat, sampleRate: nat)
    requires sampleRate > 0
    ensures var ms := DelayMs(reportNs, FrameCount(intervalUs, sampleRate), sampleRate);
            if reportNs.Some? && 51000000 <= reportNs.value < 1000000000
            then 1000000 * ms <= reportNs.value < 1000000 * (ms + 1)
            else 200 <= ms <= 200 + intervalUs / 1000 && (sampleRate >= 1000 ==> 199 + intervalUs / 1000 <= ms)
  {
    hide FrameCount, FramesMs;
    FrameRoundTrip(intervalUs, sampleRate);
  }

  /** If the sample rate changes after opening, the fallback stays within its bound exactly when the
      frames counted at opening last no longer at the new rate than the interval, rounded up. */
  lemma LatencyAfterRateChange(intervalUs: nat, openRate: nat, sampleRate: nat)
    requires openRate > 0 && sampleRate > 0
    ensures DelayMs(None, FrameCount(intervalUs, openRate), sampleRate) <= 200 + intervalUs / 1000
            <==> FrameCount(intervalUs, openRate) * 1000 < (intervalUs / 1000 + 1) * sampleRate
  {
    var a, ms := FrameCount(intervalUs, openRate) * 1000, intervalUs / 1000;
    if a < (ms + 1) * sampleRate {
      QuotientAtMost(a, sampleRate, ms);
    } else {
      QuotientAtLeast(a, sampleRate, ms + 1);
    }
  }

  /** In particular the bound holds at every sample rate not below the one at opening. */
  lemma LatencyAtHigherRate(intervalUs: nat, openRate: nat, sampleRate: nat)
    requires 0 < openRate <= sampleRate
    ensures 200 <= DelayMs(None, FrameCount(intervalUs, openRate), sampleRate) <= 200 + intervalUs / 1000
  {
    hide FrameCount, DelayMs;
    var ms := intervalUs / 1000;
    FrameBounds(intervalUs, openRate);
    assert (ms + 1) * openRate <= (ms + 1) * sampleRate by { ScaledUp(ms + 1, openRate, sampleRate); }
    LatencyAfterRateChange(intervalUs, openRate, sampleRate);
    FallbackAtLeast(FrameCount(intervalUs, openRate), sampleRate);
  }

  lemma ScaledUp(n: nat, a: int, b: int)
    requires a <= b
    ensures n * a <= n * b
  {
  }

  /** The fallback is 200 ms plus the exact duration of the frames, rounded down to a millisecond. */
  lemma FallbackExact(framesCount: nat, sampleRate: nat)
    requires sampleRate > 0
    ensures var extra := DelayMs(None, framesCount, sampleRate) - 200;
            sampleRate * extra <= framesCount * 1000 < sampleRate * (extra + 1)
  {
    var a := framesCount * 1000;
    assert a == a / sampleRate * sampleRate + a % sampleRate;
  }

  lemma FallbackAtLeast(framesCount: nat, sampleRate: nat)
    requires sampleRate > 0
    ensures 200 <= DelayMs(None, framesCount, sampleRate)
  {
  }

  /** Opened at 48 kHz and switched to 16 kHz, a 20 ms interval is reported as 60 ms. */
  lemma LatencyGrowsWhenRateDrops()
    ensures DelayMs(None, FrameCount(20000, 48000), 16000) == 260
  {
  }

  // ----- positions

  /** The whole frames that play during a delay. */
  function LatencyFrames(delayMs: nat, sampleRate: nat): (frames: nat)
    ensures 1000 * frames <= delayMs * sampleRate < 1000 * (frames + 1)
  {
    delayMs * sampleRate / 1000
  }

  /** The presentation position from the stack's byte counter: the counter is believed only if it is
      not ahead of the frames presented nor behind them by more than the latency. */
  function PresentationFrames(absorbedBytes: nat, frameSize: nat, presented: nat, latency: nat): (frames: nat)
    requires frameSize > 0
    ensures Max(0, presented - 2 * latency) <= frames <= Max(0, presented - latency)
  {
    var counted := absorbedBytes / frameSize;
    var sent := if presented < counted || presented - counted > latency then presented else counted;
    if sent > latency then sent - latency else 0
  }

  /** A position that follows the frames counted by the stack exactly if they are neither ahead of the
      frames presented nor behind them by more than the latency, and the frames presented otherwise. */
  predicate FollowsCounter(frames: int, counted: int, presented: int, latency: int) {
    frames == Max(0, (if presented - latency <= counted <= presented then counted else presented) - latency)
  }

  lemma PresentationFollowsCounter(absorbedBytes: nat, frameSize: nat, presented: nat, latency: nat)
    requires frameSize > 0
    ensures FollowsCounter(PresentationFrames(absorbedBytes, frameSize, presented, latency),
                           absorbedBytes / frameSize, presented, latency)
  {
  }

  /** Such a position lies between the frames presented less twice and less once the latency. */
  lemma FollowingIsBounded(frames: int, counted: int, presented: nat, latency: nat)
    requires FollowsCounter(frames, counted, presented, latency)
    ensures presented - 2 * latency <= frames <= presented && (frames > 0 ==> frames <= presented - latency)
  {
  }

  /** The render position: frames rendered less the latency, truncated to 32 bits. */
  function RenderFrames(rendered: nat, latency: nat): (frames: nat)
    ensures frames <= rendered && frames < TWO_32
    ensures rendered < TWO_32 ==> frames == Max(0, rendered - latency)
  {
    if rendered >= latency then (rendered - latency) % TWO_32 else 0
  }

  /** `out_calculate_feeding_delay_ms` with all its outputs asked for. */
  method CalculateFeedingDelay(reportNs: Option<nat>, absorbedBytes: nat, framesCount: nat, sampleRate: nat,
                               frameSize: nat, presented: nat)
    returns (latencyMs: nat, frames: nat)
    requires sampleRate > 0 && frameSize > 0
    ensures latencyMs == DelayMs(reportNs, framesCount, sampleRate)
    ensures frames == PresentationFrames(if reportNs.Some? then absorbedBytes else 0, frameSize, presented,
                                         LatencyFrames(latencyMs, sampleRate))
    ensures var latency, counted := LatencyFrames(latencyMs, sampleRate), (if reportNs.Some? then absorbedBytes else 0) / frameSize;
            1000 * latency <= latencyMs * sampleRate < 1000 * (latency + 1) && FollowsCounter(frames, counted, presented, latency)
  {
    hide FramesMs, LatencyFrames;
    var bytes := 0;
    var fetched := false;
    latencyMs := 0;
    if reportNs.Some? {
      bytes := absorbedBytes;
      latencyMs := reportNs.value / 1000000;
      if latencyMs > MINIMUM_DELAY_MS && latencyMs < MAXIMUM_DELAY_MS {
        fetched := true;
      }
    }
    if !fetched {
      latencyMs := FramesMs(framesCount, sampleRate) + EXTRA_AUDIO_SYNC_MS;
    }
    var latency := LatencyFrames(latencyMs, sampleRate);
    frames := bytes / frameSize;
    if presented < frames {
      frames := presented;
    } else if presented - frames > latency {
      frames := presented;
    }
    if frames > latency {
      frames := frames - latency;
    } else {
      frames := 0;
    }
  }

  // ----- pacing

  /** The time the data of one write lasts, in microseconds. */
  function PlayTime(bytes: nat, frameSize: nat, rate: nat): nat
    requires frameSize > 0 && rate > 0
  {
    bytes * 1000000 / frameSize / rate
  }

  /** The play time is the exact duration of the bytes, rounded down to a microsecond. */
  lemma PlayTimeExact(bytes: nat, frameSize: nat, rate: nat)
    requires frameSize > 0 && rate > 0
    ensures var play := PlayTime(bytes, frameSize, rate);
            rate * frameSize * play <= bytes * 1000000 < rate * frameSize * (play + 1)
  {
    var total := bytes * 1000000;
    var perRate := total / frameSize;
    var play := perRate / rate;
    assert frameSize * perRate <= total < frameSize * (perRate + 1) by { assert total == perRate * frameSize + total % frameSize; }
    assert rate * play <= perRate < rate * (play + 1) by { assert perRate == play * rate + perRate % rate; }
    NestedFloors(total, frameSize, perRate, rate, play);
  }

  lemma NestedFloors(total: int, a: int, q: int, b: int, r: int)
    requires a > 0 && b > 0 && a * q <= total < a * (q + 1) && b * r <= q < b * (r + 1)
    ensures b * a * r <= total < b * a * (r + 1)
  {
    assert a * (b * r) <= a * q by { ScaledUp(a, b * r, q); }
    assert a * (q + 1) <= a * (b * (r + 1)) by { ScaledUp(a, q + 1, b * (r + 1)); }
    assert a * (b * r) == b * a * r;
    assert a * (b * (r + 1)) == b * a * (r + 1);
  }

  /** The exact duration of the bytes, in microseconds. */
  function DurationUs(bytes: nat, frameSize: nat, rate: nat): real
    requires frameSize > 0 && rate > 0
  {
    (bytes * 1000000) as real / (frameSize as real * rate as real)
  }

  lemma PlayTimeIsDuration(bytes: nat, frameSize: nat, rate: nat)
    requires frameSize > 0 && rate > 0
    ensures var play := PlayTime(bytes, frameSize, rate) as real;
            play <= DurationUs(bytes, frameSize, rate) < play + 1.0
  {
    hide PlayTime;
    var play, d := PlayTime(bytes, frameSize, rate), rate * frameSize;
    PlayTimeExact(bytes, frameSize, rate);
    assert d as real == frameSize as real * rate as real;
    QuotientBetween(bytes * 1000000, d, play);
  }

  lemma QuotientBetween(total: int, d: int, q: int)
    requires d > 0 && d * q <= total < d * (q + 1)
    ensures q as real <= total as real / d as real < q as real + 1.0
  {
    var x := total as real / d as real;
    assert x * d as real == total as real;
    assert (d * q) as real == q as real * d as real;
    assert (d * (q + 1)) as real == (q as real + 1.0) * d as real;
    SmallerFactor(q as real, x, d as real);
    SmallerFactor(x, q as real + 1.0, d as real);
  }

  lemma SmallerFactor(a: real, b: real, d: real)
    requires d > 0.0
    ensures a * d <= b * d ==> a <= b
    ensures a * d < b * d ==> a < b
  {
  }

  function SleepTime(last: int, now: int, play: int): int {
    Max(0, play - (now - last))
  }

  /** The last-write time after a write at `now` that transferred nothing. */
  function NextLastWrite(last: int, now: int, play: int): int {
    now + SleepTime(last, now, play)
  }

  /** A write that transferred nothing: the clock when it was tried and when the call returned, and
      how long its data plays. */
  datatype StalledWrite = StalledWrite(now: int, returned: int, play: int)

  /** Consecutive stalled writes on a monotone clock. `usleep` sleeps at least its argument, which is
      an unsigned 32-bit number of microseconds. */
  ghost predicate StalledRun(last: int, clock: int, writes: seq<StalledWrite>)
    decreases |writes|
  {
    writes == [] ||
    var w := writes[0];
    && clock <= w.now && 0 <= w.play
    && w.now + SleepTime(last, w.now, w.play) % TWO_32 <= w.returned
    && StalledRun(NextLastWrite(last, w.now, w.play), w.returned, writes[1..])
  }

  function LastAfter(last: int, writes: seq<StalledWrite>): int
    decreases |writes|
  {
    if writes == [] then last else LastAfter(NextLastWrite(last, writes[0].now, writes[0].play), writes[1..])
  }

  function ClockAfter(clock: int, writes: seq<StalledWrite>): int {
    if writes == [] then clock else writes[|writes| - 1].returned
  }

  function TotalPlay(writes: seq<StalledWrite>): int {
    if writes == [] then 0 else writes[0].play + TotalPlay(writes[1..])
  }

  /** Each stalled write moves the last-write time to the later of now and the end of its data. */
  lemma LastWriteIsLater(last: int, now: int, play: int)
    ensures NextLastWrite(last, now, play) == Max(now, last + play)
  {
  }

  /** Every time to sleep along the run fits the 32-bit argument of `usleep`. */
  ghost predicate SleepsFit(last: int, writes: seq<StalledWrite>)
    decreases |writes|
  {
    writes == [] ||
    (&& SleepTime(last, writes[0].now, writes[0].play) < TWO_32
     && SleepsFit(NextLastWrite(last, writes[0].now, writes[0].play), writes[1..]))
  }

  /** Data that cannot be transferred is paced no faster than real time: after any number of stalled
      writes the clock has passed the first last-write time by all their play times together, and
      the last-write time never runs ahead of the clock. */
  lemma {:induction false} StalledWritesArePaced(last: int, clock: int, writes: seq<StalledWrite>)
    requires last <= clock && StalledRun(last, clock, writes) && SleepsFit(last, writes)
    ensures LastAfter(last, writes) <= ClockAfter(clock, writes)
    ensures last + TotalPlay(writes) <= LastAfter(last, writes)
    decreases |writes|
  {
    if writes != [] {
      var w, rest := writes[0], writes[1..];
      LastWriteIsLater(last, w.now, w.play);
      StalledWritesArePaced(NextLastWrite(last, w.now, w.play), w.returned, rest);
    }
  }

  /** The time the k-th write of the run has to sleep. */
  ghost function SleepAt(last: int, writes: seq<StalledWrite>, k: nat): int
    requires k < |writes|
  {
    SleepTime(LastAfter(last, writes[..k]), writes[k].now, writes[k].play)
  }

  lemma {:induction false} SleepsFitAt(last: int, writes: seq<StalledWrite>)
    ensures SleepsFit(last, writes) <==> forall k :: 0 <= k < |writes| ==> SleepAt(last, writes, k) < TWO_32
    decreases |writes|
  {
    if writes != [] {
      var next, rest := NextLastWrite(last, writes[0].now, writes[0].play), writes[1..];
      SleepsFitAt(next, rest);
      assert SleepAt(last, writes, 0) == SleepTime(last, writes[0].now, writes[0].play);
      forall k | 0 < k < |writes|
        ensures SleepAt(last, writes, k) == SleepAt(next, rest, k - 1)
      {
        assert writes[..k][1..] == rest[..k - 1];
      }
      assert forall k :: 0 <= k < |rest| ==> SleepAt(next, rest, k) == SleepAt(last, writes, k + 1);
    }
  }

  /** The run up to its k-th write, which now returns at `returned`. */
  function Redone(writes: seq<StalledWrite>, k: nat, returned: int): seq<StalledWrite>
    requires k < |writes|
  {
    writes[..k] + [writes[k].(returned := returned)]
  }

  lemma {:induction false} RedoneAt(last: int, clock: int, writes: seq<StalledWrite>, k: nat, returned: int)
    requires StalledRun(last, clock, writes) && k < |writes|
    ensures StalledRun(last, clock, Redone(writes, k, returned)) <==>
            writes[k].now + SleepAt(last, writes, k) % TWO_32 <= returned
    ensures LastAfter(last, writes[..k + 1]) == writes[k].now + SleepAt(last, writes, k)
    decreases k
  {
    var next, rest := NextLastWrite(last, writes[0].now, writes[0].play), writes[1..];
    assert writes[..k + 1][1..] == rest[..k];
    if k == 0 {
      assert Redone(writes, 0, returned)[1..] == [];
      assert StalledRun(next, returned, []);
    } else {
      assert writes[..k][1..] == rest[..k - 1];
      assert Redone(writes, k, returned)[1..] == Redone(rest, k - 1, returned);
      RedoneAt(next, writes[0].returned, rest, k - 1, returned);
    }
  }

  /** The condition is exact, over whole runs: whenever the sleep of any of its writes may end, the write
      does not return before the last-write time it leaves, if and only if every time to sleep along
      the run fits the 32-bit argument of `usleep`. */
  lemma PacedIffSleepsFit(last: int, clock: int, writes: seq<StalledWrite>)
    requires StalledRun(last, clock, writes)
    ensures SleepsFit(last, writes) <==>
            forall k, returned :: 0 <= k < |writes| && StalledRun(last, clock, Redone(writes, k, returned)) ==>
                                    LastAfter(last, writes[..k + 1]) <= returned
  {
    SleepsFitAt(last, writes);
    forall k, returned | 0 <= k < |writes| && StalledRun(last, clock, Redone(writes, k, returned))
      ensures SleepAt(last, writes, k) < TWO_32 ==> LastAfter(last, writes[..k + 1]) <= returned
    {
      RedoneAt(last, clock, writes, k, returned);
    }
    forall k | 0 <= k < |writes| && SleepAt(last, writes, k) >= TWO_32
      ensures exists early :: StalledRun(last, clock, Redone(writes, k, early)) && early < LastAfter(last, writes[..k + 1])
    {
      var early := writes[k].now + SleepAt(last, writes, k) % TWO_32;
      RedoneAt(last, clock, writes, k, early);
      assert StalledRun(last, clock, Redone(writes, k, early));
    }
  }

  /** The 32-bit sleep matters: data of 2^32 microseconds may not be slept for at all. */
  lemma VeryLongDataIsNotPaced()
    ensures var writes := [StalledWrite(0, 0, TWO_32)];
            StalledRun(0, 0, writes) && LastAfter(0, writes) > ClockAfter(0, writes)
  {
    var w := StalledWrite(0, 0, TWO_32);
    assert SleepTime(0, 0, TWO_32) % TWO_32 == 0;
    assert StalledRun(NextLastWrite(0, 0, TWO_32), 0, [w][1..]);
    assert LastAfter(NextLastWrite(0, 0, TWO_32), [w][1..]) == TWO_32;
  }
}
