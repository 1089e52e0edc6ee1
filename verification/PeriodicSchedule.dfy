/**
 The arithmetic by which a repeating timer chooses the delay of its next callback
 (system/common/repeating_timer.cc), and what that arithmetic does over a whole run.
 */
module PeriodicSchedule {
  import opened MachineInt

  /** What the timer knows when a callback is outstanding: `expected` is the absolute time
      it keeps, `due` the instant (clock reading plus posted delay) the callback was posted for. */
  datatype Clockwork = Clockwork(period: int, expected: int, due: int)

  /** `expected_time_next_task_us_ += period_us` on an unsigned 64-bit field. */
  function NextExpected(expected: int, period: int): int {
    ToUint64(expected + period)
  }

  /** The delay `RunTask` posts when it reads the clock as `now`. */
  function NextDelay(expected: int, now: int, period: int): int
    requires period > 0
  {
    var remaining := ToInt64(ToUint64(expected - now));
    if remaining < 0 then RemTrunc(RemTrunc(remaining, period) + period, period) else remaining
  }

  /** One callback: advance the expected time and post the next callback. */
  function Fire(c: Clockwork, now: int): Clockwork
    requires c.period > 0
  {
    var expected := NextExpected(c.expected, c.period);
    Clockwork(c.period, expected, now + NextDelay(expected, now, c.period))
  }

  /** How many whole periods the posted instant lies beyond the expected time. */
  function Backlog(c: Clockwork): int
    requires c.period > 0
  {
    (c.due - c.expected) / c.period
  }

  /** The posted instant is the expected time plus a non-negative number of periods. */
  ghost predicate Aligned(c: Clockwork) {
    && c.period > 0
    && 0 <= c.expected
    && 0 <= Backlog(c)
    && c.due == c.expected + Backlog(c) * c.period
  }

  /** A callback that runs at most `early` microseconds before it is due, on a clock that
      has not come within a period of the end of the signed 64-bit range. */
  ghost predicate Timely(c: Clockwork, now: int, early: nat) {
    && 0 <= now
    && c.due - early <= now
    && now + c.period + early < TWO_63
  }

  /** The double truncated remainder of the source is the Euclidean remainder. */
  lemma DoubleRemainder(a: int, p: int)
    requires p > 0
    ensures RemTrunc(RemTrunc(a, p) + p, p) == a % p
  {
    if a < 0 {
      var q, r := (-a) / p, (-a) % p;
      assert -a == q * p + r;
      if r == 0 {
        assert a == (-q) * p + 0;
        DivModUnique(a, p, -q, 0);
        DivModUnique(p, p, 1, 0);
      } else {
        assert a == (-q - 1) * p + (p - r);
        DivModUnique(a, p, -q - 1, p - r);
        DivModUnique(p - r, p, 0, p - r);
      }
    } else {
      var q, r := a / p, a % p;
      assert r + p == 1 * p + r;
      DivModUnique(r + p, p, 1, r);
    }
  }

  /** Without overflow the posted delay is the time left, or the time to the next grid point. */
  lemma DelayValue(c: Clockwork, now: int, early: nat)
    requires c.period > 0 && 0 <= c.expected <= c.due && Timely(c, now, early)
    ensures NextExpected(c.expected, c.period) == c.expected + c.period
    ensures var remaining := c.expected + c.period - now;
            NextDelay(c.expected + c.period, now, c.period) == if remaining < 0 then remaining % c.period else remaining
  {
    SignedDifference(c.expected + c.period, now);
    DoubleRemainder(c.expected + c.period - now, c.period);
  }

  /** The posted instant is the first point of the grid, from the expected time on, that is not over:
      `k` periods after it, for the least `k` that will do. */
  lemma NextGridPoint(expected: int, now: int, period: int) returns (k: nat)
    requires period > 0 && 0 <= expected < TWO_63 && 0 <= now < TWO_63
    ensures now + NextDelay(expected, now, period) == expected + k * period
    ensures now <= expected + k * period
    ensures k > 0 ==> expected + (k - 1) * period < now
  {
    var remaining := expected - now;
    SignedDifference(expected, now);
    DoubleRemainder(remaining, period);
    if remaining >= 0 {
      k := 0;
    } else {
      var q, r := remaining / period, remaining % period;
      assert remaining == q * period + r;
      MultipleGap(q, period);
      k := -q;
      assert k * period == -(q * period);
      assert (k - 1) * period == k * period - period;
    }
  }

  /** Rounding a missed instant up to the grid: `behind` whole periods have been missed. */
  lemma GridStep(remaining: int, p: int, behind: int, slack: int)
    requires p > 0 && 0 <= slack < p
    requires remaining == slack - behind * p
    ensures remaining < 0 <==> behind > 0
    ensures (if remaining < 0 then remaining % p else remaining) - remaining == Max(0, behind) * p
  {
    MultipleGap(behind, p);
    if behind > 0 {
      assert remaining == (-behind) * p + slack;
      DivModUnique(remaining, p, -behind, slack);
    }
  }

  /** The effect of one callback on the grid: `late` periods, the last of them begun, have
      passed since the due instant, which itself was `ahead` periods beyond the expected time. */
  lemma FireOnGrid(c: Clockwork, now: int, early: nat, ahead: nat, late: int, slack: int)
    requires c.period > 0 && 0 <= c.expected && c.due == c.expected + ahead * c.period
    requires Timely(c, now, early)
    requires now - c.due == late * c.period - slack && 0 <= slack < c.period
    ensures Fire(c, now).expected == c.expected + c.period
    ensures Fire(c, now).due == c.expected + c.period + Max(0, ahead + late - 1) * c.period
  {
    hide NextDelay, NextExpected;
    var p, behind := c.period, ahead + late - 1;
    MultipleGap(ahead, p);
    DelayValue(c, now, early);
    assert behind * p == ahead * p + late * p - p;
    GridStep(c.expected + p - now, p, behind, slack);
  }

  /** `Backlog` is the number of periods between the two instants. */
  lemma BacklogOf(c: Clockwork, ahead: int)
    requires c.period > 0 && c.due == c.expected + ahead * c.period
    ensures Backlog(c) == ahead
  {
    DivModUnique(c.due - c.expected, c.period, ahead, 0);
  }

  /** The ceiling of a quotient, with the slack that rounding up leaves. */
  lemma CeilDivSlack(a: int, b: int) returns (slack: int)
    requires b > 0
    ensures a == CeilDiv(a, b) * b - slack && 0 <= slack < b
  {
    slack := (-a) % b;
    assert -a == ((-a) / b) * b + slack;
  }

  /** The backlog obeys the recurrence of a queue: it gains the periods begun since the due
      instant, loses one for the callback itself, and never goes below zero. */
  lemma BacklogRecurrence(c: Clockwork, now: int, early: nat)
    requires Aligned(c) && Timely(c, now, early)
    ensures Aligned(Fire(c, now))
    ensures Backlog(Fire(c, now)) == Max(0, Backlog(c) + CeilDiv(now - c.due, c.period) - 1)
    ensures Fire(c, now).expected == c.expected + c.period && Fire(c, now).period == c.period
  {
    var late := CeilDiv(now - c.due, c.period);
    var slack := CeilDivSlack(now - c.due, c.period);
    FireOnGrid(c, now, early, Backlog(c), late, slack);
    BacklogOf(Fire(c, now), Max(0, Backlog(c) + late - 1));
  }

  /** Every posted instant is at or after the clock reading, by at most a period plus the slack. */
  lemma DelayBounded(c: Clockwork, now: int, early: nat)
    requires Aligned(c) && Timely(c, now, early)
    ensures now <= Fire(c, now).due <= now + c.period + early
  {
    MultipleGap(Backlog(c), c.period);
    DelayValue(c, now, early);
  }

  /** The timer after a callback at each of the given clock readings. */
  function After(c: Clockwork, readings: seq<int>): Clockwork
    requires c.period > 0
    decreases |readings|
  {
    if readings == [] then c else After(Fire(c, readings[0]), readings[1..])
  }

  ghost predicate TimelyRun(c: Clockwork, readings: seq<int>, early: nat)
    requires c.period > 0
    decreases |readings|
  {
    readings == [] || (Timely(c, readings[0], early) && TimelyRun(Fire(c, readings[0]), readings[1..], early))
  }

  /** Each callback of a timely run keeps the timer aligned and advances the expected time by
      exactly one period. */
  lemma {:induction false} ExpectedAdvances(c: Clockwork, readings: seq<int>, early: nat)
    requires Aligned(c) && TimelyRun(c, readings, early)
    ensures var end := After(c, readings);
            Aligned(end) && end.period == c.period && end.expected == c.expected + |readings| * c.period
    decreases |readings|
  {
    hide Fire, Backlog;
    if readings != [] {
      BacklogRecurrence(c, readings[0], early);
      ExpectedAdvances(Fire(c, readings[0]), readings[1..], early);
      assert |readings| * c.period == c.period + (|readings| - 1) * c.period;
    }
  }

  /** The last callback of a timely run is posted within a period and the slack of its reading. */
  lemma {:induction false} LastDelayBounded(c: Clockwork, readings: seq<int>, early: nat)
    requires Aligned(c) && TimelyRun(c, readings, early) && readings != []
    ensures var now := readings[|readings| - 1]; now <= After(c, readings).due <= now + c.period + early
    decreases |readings|
  {
    hide Fire, Backlog;
    var next, rest := Fire(c, readings[0]), readings[1..];
    BacklogRecurrence(c, readings[0], early);
    if rest == [] {
      DelayBounded(c, readings[0], early);
      assert After(c, readings) == After(next, rest) == next;
    } else {
      LastDelayBounded(next, rest, early);
    }
  }

  /** Phase lock and conservation: after n callbacks the expected time has advanced by exactly n
      periods, and the next due instant lies on the original grid, n + backlog periods on.
      Lateness and truncated delays therefore never accumulate. */
  lemma PhaseLock(c: Clockwork, readings: seq<int>, early: nat)
    requires Aligned(c) && TimelyRun(c, readings, early)
    ensures var end := After(c, readings);
            && Aligned(end)
            && end.period == c.period
            && end.expected == c.expected + |readings| * c.period
            && end.due == c.expected + (|readings| + Backlog(end)) * c.period
            && (readings != [] ==>
                  readings[|readings| - 1] <= end.due <= readings[|readings| - 1] + c.period + early)
  {
    hide Fire, Backlog;
    ExpectedAdvances(c, readings, early);
    if readings != [] {
      LastDelayBounded(c, readings, early);
    }
    var n, b, p := |readings|, Backlog(After(c, readings)), c.period;
    assert (n + b) * p == n * p + b * p;
  }

  /** Every callback runs at or after its due instant and less than one period late. */
  ghost predicate PromptRun(c: Clockwork, readings: seq<int>)
    requires c.period > 0
    decreases |readings|
  {
    readings == [] ||
    (c.due <= readings[0] < c.due + c.period && PromptRun(Fire(c, readings[0]), readings[1..]))
  }

  /** A prompt callback leaves the backlog alone, except that one exactly on the grid works off
      one backlogged period. */
  lemma PromptBacklog(c: Clockwork, now: int, early: nat)
    requires Aligned(c) && Timely(c, now, early)
    requires c.due <= now < c.due + c.period
    ensures Backlog(Fire(c, now)) ==
            if Backlog(c) == 0 then 0 else if now == c.due then Backlog(c) - 1 else Backlog(c)
  {
    BacklogRecurrence(c, now, early);
    var p, late := c.period, now - c.due;
    if late == 0 {
      DivModUnique(0, p, 0, 0);
    } else {
      assert -late == (-1) * p + (p - late);
      DivModUnique(-late, p, -1, p - late);
    }
  }

  /** Over a prompt run the backlog never grows, so a backlog of zero stays zero. */
  lemma {:induction false} PromptRunNeverFallsBehind(c: Clockwork, readings: seq<int>, early: nat)
    requires Aligned(c) && TimelyRun(c, readings, early) && PromptRun(c, readings)
    ensures Aligned(After(c, readings)) && Backlog(After(c, readings)) <= Backlog(c)
    decreases |readings|
  {
    hide Fire, Backlog;
    if readings != [] {
      BacklogRecurrence(c, readings[0], early);
      PromptBacklog(c, readings[0], early);
      PromptRunNeverFallsBehind(Fire(c, readings[0]), readings[1..], early);
    }
  }

  /** A timer that starts on time and is served promptly is due at the successive multiples of
      its period. */
  lemma PromptRunIsExact(c: Clockwork, readings: seq<int>, early: nat)
    requires Aligned(c) && TimelyRun(c, readings, early) && PromptRun(c, readings)
    requires Backlog(c) == 0
    ensures After(c, readings).due == c.due + |readings| * c.period
  {
    hide Fire, Backlog;
    ExpectedAdvances(c, readings, early);
    PromptRunNeverFallsBehind(c, readings, early);
    assert Backlog(After(c, readings)) * c.period == 0;
  }

  /** The first delay, computed after the previous task was cancelled at clock reading `t1`. */
  function FirstDelay(t0: int, period: int, t1: int): int {
    ToInt64(ToUint64(t0 + period - t1))
  }

  /** The first callback is posted for one period after the call began. The posted delay is
      non-negative exactly when cancelling the previous task took no longer than a period. */
  lemma FirstDueInstant(t0: int, period: int, t1: int)
    requires period > 0 && 0 <= t0 <= t1
    requires t0 + period < TWO_63 && t1 < TWO_63
    ensures t1 + FirstDelay(t0, period, t1) == t0 + period
    ensures FirstDelay(t0, period, t1) >= 0 <==> t1 - t0 <= period
  {
    SignedDifference(t0 + period, t1);
  }

  /** Cancelling for three periods leaves the first callback due two periods in the past. */
  lemma FirstDelayCanBeNegative()
    ensures FirstDelay(0, 10, 30) == -20
  {
    SignedDifference(10, 30);
  }

  /** `std::chrono::duration_cast<std::chrono::milliseconds>` of a delay in microseconds. */
  function ToMillis(delayUs: int): int {
    if delayUs >= 0 then delayUs / 1000 else -((-delayUs) / 1000)
  }

  /** The cast truncates toward zero. */
  lemma ToMillisTruncates(delayUs: int)
    ensures delayUs >= 0 ==> 1000 * ToMillis(delayUs) <= delayUs < 1000 * (ToMillis(delayUs) + 1)
    ensures delayUs <= 0 ==> 1000 * (ToMillis(delayUs) - 1) < delayUs <= 1000 * ToMillis(delayUs)
  {
  }

  /** On the handler path a delay loses less than a millisecond, so a callback that runs no
      earlier than posted runs at most 999 microseconds before it is due. */
  lemma HandlerSlack(now: int, delayUs: nat, ranAt: int)
    requires now + ToMillis(delayUs) * 1000 <= ranAt
    ensures now + delayUs - 999 <= ranAt
  {
    ToMillisTruncates(delayUs);
  }
}
