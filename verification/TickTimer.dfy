/** The timers of the port: a start tick and a number of ticks, compared with a 32-bit tick counter that wraps.
    True time is an unbounded count of ticks; the counter shows it modulo 2^32. */
module TickTimer {

  const WRAP := 0x1_0000_0000

  /** uint32_t */
  type Word = x: int | 0 <= x < WRAP

  datatype Countdown = Countdown(start: Word, timeout: Word)

  /** What the tick counter shows at true time `now`. */
  function Counter(now: nat): Word {
    now % WRAP
  }

  /** Subtraction of two counter values, as unsigned arithmetic does it. */
  function Minus(a: Word, b: Word): Word {
    (a - b) % WRAP
  }

  /** Milliseconds to whole ticks of `period` milliseconds each. */
  function Ticks(ms: Word, period: nat): Word
    requires period >= 1
  {
    DivBound(ms, period);
    ms / period
  }

  lemma DivBound(n: nat, period: nat)
    requires period >= 1
    ensures n / period <= n && n / period * period <= n
  {
    ProductAtLeast(n / period, period);
  }

  lemma ProductAtLeast(q: int, period: nat)
    requires period >= 1
    ensures q >= 0 ==> q * period >= q
  {
    if q >= 0 { assert q * (period - 1) >= 0; }
  }

  /** A countdown of `ms` milliseconds begun at true time `now`. */
  function Started(now: nat, ms: Word, period: nat): Countdown
    requires period >= 1
  {
    Countdown(Counter(now), Ticks(ms, period))
  }

  predicate Expired(t: Countdown, now: nat) {
    Minus(Counter(now), t.start) >= t.timeout
  }

  predicate ExpiredAfter(t: Countdown, now: nat, wait: nat) {
    Expired(t, now + wait)
  }

  /** Milliseconds of `sec` seconds, in 32 bits. */
  function Seconds(sec: nat): Word {
    sec * 1000 % WRAP
  }

  // ---------------------------------------------------------------- wrapping

  /** The difference of two counter values is the true elapsed time modulo 2^32. */
  lemma MinusIsElapsed(started: nat, now: nat)
    requires started <= now
    ensures Minus(Counter(now), Counter(started)) == (now - started) % WRAP
  {
    var a, b := now / WRAP, started / WRAP;
    assert now == a * WRAP + Counter(now) && started == b * WRAP + Counter(started);
    var d := Counter(now) - Counter(started);
    ModShift(d, a - b);
    assert now - started == d + (a - b) * WRAP;
  }

  lemma ModShift(d: int, k: int)
    ensures (d + k * WRAP) % WRAP == d % WRAP
  {
    var q, r := d / WRAP, d % WRAP;
    assert d + k * WRAP == (q + k) * WRAP + r;
  }

  /** However often the counter wrapped, a countdown that reads as expired really has run its time. */
  lemma ExpiryIsSound(started: nat, now: nat, ms: Word, period: nat)
    requires period >= 1 && started <= now && Expired(Started(started, ms, period), now)
    ensures now - started >= Ticks(ms, period)
  {
    hide Counter, Minus, Ticks;
    MinusIsElapsed(started, now);
  }

  /** It reads as expired exactly when the elapsed time, less all whole turns of the counter, reaches the timeout;
      so within one turn of the counter expiry is exact. */
  lemma ExpiryExactly(started: nat, now: nat, ms: Word, period: nat)
    requires period >= 1 && started <= now
    ensures Expired(Started(started, ms, period), now) <==> (now - started) % WRAP >= Ticks(ms, period)
    ensures now - started < WRAP ==> (Expired(Started(started, ms, period), now) <==> now - started >= Ticks(ms, period))
  {
    hide Counter, Minus, Ticks;
    MinusIsElapsed(started, now);
  }

  /** Beyond one turn it is not: polled just as the counter comes round, a one-tick countdown looks unexpired. */
  lemma ExpiryCanBeMissed()
    ensures var t := Started(0, 10, 10); !Expired(t, WRAP) && WRAP - 0 >= t.timeout
  {
    assert Counter(WRAP) == 0;
  }

  // ---------------------------------------------------------------- the timer

  /** Timer, with the tick counter as a parameter: `now` is true time at the call. */
  class Timer {
    var startTicks: Word
    var timeoutTicks: Word
    var lastPolledTicks: Word
    const period: nat

    ghost predicate Valid()
      reads this
    {
      period >= 1 && timeoutTicks * period < WRAP
    }

    ghost function State(): Countdown
      reads this
    {
      Countdown(startTicks, timeoutTicks)
    }

    /** init_timer */
    constructor (tickPeriodMs: nat)
      requires tickPeriodMs >= 1
      ensures Valid() && period == tickPeriodMs && State() == Countdown(0, 0) && lastPolledTicks == 0
    {
      period := tickPeriodMs;
      startTicks, timeoutTicks, lastPolledTicks := 0, 0, 0;
    }

    /** countdown_ms */
    method CountdownMs(now: nat, ms: Word)
      requires Valid()
      modifies this
      ensures Valid() && State() == Started(now, ms, period) && lastPolledTicks == 0
      ensures timeoutTicks * period <= ms
    {
      DivBound(ms, period);
      startTicks := Counter(now);
      timeoutTicks := Ticks(ms, period);
      lastPolledTicks := 0;
    }

    /** countdown_sec: out of range, the product wraps (the port only logs it). */
    method CountdownSec(now: nat, sec: nat)
      requires Valid()
      modifies this
      ensures Valid() && State() == Started(now, Seconds(sec), period) && lastPolledTicks == 0
      ensures sec <= (WRAP - 1) / 1000 ==> State() == Started(now, sec * 1000, period)
    {
      CountdownMs(now, Seconds(sec));
    }

    /** has_timer_expired.  Polling twice within one tick without expiry sleeps a tick. */
    method HasExpired(now: nat) returns (expired: bool, slept: bool)
      modifies this`lastPolledTicks
      ensures expired <==> Expired(State(), now)
      ensures slept <==> !expired && old(lastPolledTicks) == Counter(now)
      ensures lastPolledTicks == Counter(now)
    {
      expired := Minus(Counter(now), startTicks) >= timeoutTicks;
      slept := !expired && Counter(now) == lastPolledTicks;
      lastPolledTicks := Counter(now);
    }

    /** left_ms: the product does not wrap, it is zero exactly on expiry, and waiting that long, no less, is
        waiting until expiry. */
    method LeftMs(now: nat) returns (left: Word)
      requires Valid()
      ensures left == 0 <==> Expired(State(), now)
      ensures left > 0 ==> left == (timeoutTicks - Minus(Counter(now), startTicks)) * period
      ensures forall k: nat :: k <= left / period ==> (ExpiredAfter(State(), now, k) <==> k == left / period)
    {
      var elapsed := Minus(Counter(now), startTicks);
      if elapsed < timeoutTicks {
        var ticks := timeoutTicks - elapsed;
        ProductMonotone(ticks, timeoutTicks, period);
        left := ticks * period;
        assert left / period == ticks by { DivExact(ticks, period); }
        forall k: nat | k <= ticks
          ensures ExpiredAfter(State(), now, k) <==> k == ticks
        {
          ElapsedAdvances(startTicks, now, k);
        }
      } else {
        left := 0;
        DivBound(0, period);
        assert ExpiredAfter(State(), now, 0);
      }
    }
  }

  lemma ProductMonotone(a: nat, b: nat, period: nat)
    requires a <= b && period >= 1
    ensures a <= a * period <= b * period
  {
    assert (b - a) * period >= 0;
    assert a * (period - 1) >= 0;
  }

  lemma DivExact(ticks: nat, period: nat)
    requires period >= 1
    ensures ticks * period / period == ticks
  {
    var n := ticks * period;
    var gap := ticks - n / period;
    assert n == n / period * period + n % period;
    assert gap * period == n % period;
    Multiple(gap, period);
  }

  lemma Multiple(gap: int, period: nat)
    requires period >= 1
    ensures gap >= 1 ==> gap * period >= period
    ensures gap <= -1 ==> gap * period + period <= 0
  {
    if gap >= 1 {
      assert (gap - 1) * period >= 0;
    } else if gap <= -1 {
      assert (-1 - gap) * period >= 0;
    }
  }

  lemma ElapsedAdvances(start: Word, now: nat, k: nat)
    requires Minus(Counter(now), start) + k < WRAP
    ensures Minus(Counter(now + k), start) == Minus(Counter(now), start) + k
  {
    var elapsed := Minus(Counter(now), start);
    var q := (Counter(now) - start) / WRAP;
    assert Counter(now) == start + elapsed + q * WRAP;
    assert now + k == now / WRAP * WRAP + Counter(now) + k;
    var p := (now + k) / WRAP;
    assert Counter(now + k) - start == elapsed + k + (now / WRAP + q - p) * WRAP;
    ModShift(elapsed + k, now / WRAP + q - p);
  }
}
