/**
 * `TimeSystem`: an in-game clock of days, hours, minutes and seconds that
 * advances by real time scaled by a progression rate, can be paused, set,
 * reset, read as "HH:MM:SS" and polled for a target hour.
 *
 * The fields are Java `int`s: every `+=` is written with `ToInt32`, and `/`
 * and `%` are Java's truncating operators.
 */
module TimeSystem {
  import opened Wrappers
  import opened JavaLang

  /** The clock's four counters. */
  datatype Clock = Clock(days: int, hours: int, minutes: int, seconds: int)

  /** Every counter within its unit: what a clock shows between updates. */
  predicate Normalised(c: Clock) {
    0 <= c.days && 0 <= c.hours < 24 && 0 <= c.minutes < 60 && 0 <= c.seconds < 60
  }

  /** The clock as a count of in-game seconds. */
  function TotalSeconds(c: Clock): int {
    c.days * 86400 + c.hours * 3600 + c.minutes * 60 + c.seconds
  }

  /**
   * The clock after `update` adds `inc` in-game seconds: the seconds take the
   * increment, then each unit hands its quotient to the next and keeps its
   * remainder, seconds to minutes to hours to days.
   */
  function Advance(c: Clock, inc: int): Clock
  {
    var s1 := ToInt32(c.seconds + inc);
    var m1 := ToInt32(c.minutes + JDiv(s1, 60));
    var s2 := JRem(s1, 60);
    var h1 := ToInt32(c.hours + JDiv(m1, 60));
    var m2 := JRem(m1, 60);
    var d1 := ToInt32(c.days + JDiv(h1, 24));
    var h2 := JRem(h1, 24);
    Clock(d1, h2, m2, s2)
  }

  /**
   * From a normalised clock, a non-negative increment that overflows no
   * counter leaves the clock normalised and adds exactly `inc` to its
   * seconds count.
   */
  lemma AdvanceCarries(c: Clock, inc: int)
    requires Normalised(c)
    requires 0 <= inc <= INT_MAX - 59
    requires c.days + inc / 86400 < INT_MAX
    ensures Normalised(Advance(c, inc))
    ensures TotalSeconds(Advance(c, inc)) == TotalSeconds(c) + inc
    ensures Advance(c, inc).days <= c.days + inc / 86400 + 1
  {
    var s1 := c.seconds + inc;
    assert ToInt32(s1) == s1;
    var q1, s2 := s1 / 60, s1 % 60;
    assert s1 == 60 * q1 + s2;
    var m1 := c.minutes + q1;
    assert ToInt32(m1) == m1;
    var q2, m2 := m1 / 60, m1 % 60;
    assert m1 == 60 * q2 + m2;
    var h1 := c.hours + q2;
    assert ToInt32(h1) == h1;
    var q3, h2 := h1 / 24, h1 % 24;
    assert h1 == 24 * q3 + h2;
    // Everything below the days is at most a day short of the increment.
    assert 86400 * q3 + 3600 * h2 + 60 * m2 + s2 == c.hours * 3600 + c.minutes * 60 + s1;
    assert 86400 * q3 <= 86399 + inc;
    assert q3 <= inc / 86400 + 1;
    assert ToInt32(c.days + q3) == c.days + q3;
    assert Advance(c, inc) == Clock(c.days + q3, h2, m2, s2);
  }

  /** Two normalised clocks with the same seconds count are the same clock. */
  lemma NormalisedUnique(a: Clock, b: Clock)
    requires Normalised(a) && Normalised(b)
    requires TotalSeconds(a) == TotalSeconds(b)
    ensures a == b
  {
    var below := a.hours * 3600 + a.minutes * 60 + a.seconds;
    var belowB := b.hours * 3600 + b.minutes * 60 + b.seconds;
    assert 0 <= below < 86400 && 0 <= belowB < 86400;
    assert a.days * 86400 - b.days * 86400 == belowB - below;
    assert a.days == b.days;
    assert a.hours == b.hours;
    assert a.minutes == b.minutes;
  }

  lemma DaysAdd(a: int, b: int)
    requires 0 <= a && 0 <= b
    ensures a / 86400 + b / 86400 <= (a + b) / 86400
  {
    assert a == 86400 * (a / 86400) + a % 86400;
    assert b == 86400 * (b / 86400) + b % 86400;
  }

  /**
   * Two updates in a row, by `a` and then by `b`, equal one update by their
   * sum `n`, while nothing overflows.
   */
  lemma AdvanceAdditive(c: Clock, a: int, b: int, n: int)
    requires Normalised(c) && n == a + b
    requires 0 <= a && 0 <= b && n <= INT_MAX - 59
    requires c.days + n / 86400 + 1 < INT_MAX
    ensures Advance(Advance(c, a), b) == Advance(c, n)
  {
    AdvanceCarries(c, a);
    DaysAdd(a, b);
    AdvanceCarries(Advance(c, a), b);
    AdvanceCarries(c, n);
    NormalisedUnique(Advance(Advance(c, a), b), Advance(c, n));
  }

  /**
   * Whatever the clock and the increment, the carries leave seconds and
   * minutes strictly between -60 and 60 and hours between -24 and 24.
   */
  lemma AdvanceBounded(c: Clock, inc: int)
    ensures var r := Advance(c, inc);
      -60 < r.seconds < 60 && -60 < r.minutes < 60 && -24 < r.hours < 24
  {
  }

  /**
   * A negative increment is not carried downwards: one second back from
   * midnight leaves the seconds at -1, because Java's `%` keeps the sign.
   */
  lemma NegativeIncrementUnnormalised()
    ensures Advance(Clock(0, 0, 0, 0), -1) == Clock(0, 0, 0, -1)
    ensures !Normalised(Advance(Clock(0, 0, 0, 0), -1))
  {
    assert JDiv(-1, 60) == 0 && JRem(-1, 60) == -1;
  }

  /** `%02d`: at least two characters, zero-padded after any sign. */
  function Format02(n: int): string
  {
    if 0 <= n < 10 then "0" + NatToString(n) else IntToString(n)
  }

  /** A value below 100 is written as exactly two digits that read back as it. */
  lemma Format02ReadsBack(n: int)
    requires 0 <= n < 100
    ensures |Format02(n)| == 2 && AllDigits(Format02(n))
    ensures DigitsValue(Format02(n)) == n
  {
    if n >= 10 {
      assert NatToString(n / 10) == [DigitChar(n / 10)];
      assert Format02(n) == [DigitChar(n / 10), DigitChar(n % 10)];
      assert Format02(n)[..1] == [DigitChar(n / 10)];
    } else {
      assert Format02(n) == ['0', DigitChar(n)];
      assert Format02(n)[..1] == ['0'] && ['0'][..0] == [];
      assert DigitsValue(['0']) == 0;
    }
  }

  /** "HH:MM:SS" of a clock; days are not shown. */
  function TimeText(c: Clock): string
  {
    Format02(c.hours) + ":" + Format02(c.minutes) + ":" + Format02(c.seconds)
  }

  /**
   * The text of a normalised clock is eight characters, colons at 2 and 5,
   * and its three fields parse back to hours, minutes and seconds.
   */
  lemma TimeTextReadsBack(c: Clock)
    requires Normalised(c)
    ensures var t := TimeText(c);
      && |t| == 8 && t[2] == ':' && t[5] == ':'
      && ParseInt(t[0..2]) == Some(c.hours)
      && ParseInt(t[3..5]) == Some(c.minutes)
      && ParseInt(t[6..8]) == Some(c.seconds)
  {
    Format02ReadsBack(c.hours);
    Format02ReadsBack(c.minutes);
    Format02ReadsBack(c.seconds);
    var t := TimeText(c);
    assert t[0..2] == Format02(c.hours);
    assert t[3..5] == Format02(c.minutes);
    assert t[6..8] == Format02(c.seconds);
  }

  /** The hour, minute and second `setTime` accepts. */
  predicate ValidTime(h: int, m: int, s: int) {
    0 <= h <= 23 && 0 <= m <= 59 && 0 <= s <= 59
  }

  class TimeSystem {
    var hours: int
    var minutes: int
    var seconds: int
    var days: int
    /** In-game seconds per real second. */
    const progressionRate: real
    var isPaused: bool

    function Time(): Clock
      reads this
    {
      Clock(days, hours, minutes, seconds)
    }

    /** A new clock stands at day 0, 00:00:00, running. */
    constructor (rate: real)
      ensures Time() == Clock(0, 0, 0, 0) && !isPaused
      ensures progressionRate == rate
    {
      hours, minutes, seconds, days := 0, 0, 0, 0;
      progressionRate := rate;
      isPaused := false;
    }

    /**
     * `update(realTimeDelta)`: paused, nothing changes; running, the clock
     * advances by `(int)(realTimeDelta * progressionRate)` seconds.
     */
    method Update(realTimeDelta: real)
      modifies this
      ensures isPaused == old(isPaused)
      ensures old(isPaused) ==> Time() == old(Time())
      ensures !old(isPaused) ==> Time() == Advance(old(Time()), DoubleToInt(realTimeDelta * progressionRate))
    {
      if isPaused {
        return;
      }
      var inGameTimeDelta := realTimeDelta * progressionRate;
      // `Advance` performs the source's seven updates in the source's order.
      var next := Advance(Time(), DoubleToInt(inGameTimeDelta));
      days, hours, minutes, seconds := next.days, next.hours, next.minutes, next.seconds;
    }

    /**
     * `setTime(h, m, s)`: out-of-range values throw (`thrown`) and change
     * nothing; otherwise hours, minutes and seconds are set and the days and
     * the pause flag are kept.
     */
    method SetTime(h: int, m: int, s: int) returns (thrown: bool)
      modifies this
      ensures thrown <==> !ValidTime(h, m, s)
      ensures isPaused == old(isPaused)
      ensures thrown ==> Time() == old(Time())
      ensures !thrown ==> Time() == Clock(old(days), h, m, s)
    {
      if h < 0 || h > 23 || m < 0 || m > 59 || s < 0 || s > 59 {
        return true;
      }
      hours := h;
      minutes := m;
      seconds := s;
      return false;
    }

    /** `getCurrentTime()`: the "HH:MM:SS" text of the clock. */
    function CurrentTime(): (r: string)
      reads this
      ensures Normalised(Time()) ==> |r| == 8 && r[2] == ':' && r[5] == ':'
      ensures Normalised(Time()) ==> ParseInt(r[0..2]) == Some(hours) && ParseInt(r[3..5]) == Some(minutes)
                                     && ParseInt(r[6..8]) == Some(seconds)
    {
      if Normalised(Time()) then TimeTextReadsBack(Time()); TimeText(Time())
      else TimeText(Time())
    }

    /** `setPaused(paused)`: afterwards `isPaused()` answers `paused`; the clock is kept. */
    method SetPaused(paused: bool)
      modifies this
      ensures IsPaused() == paused
      ensures Time() == old(Time())
    {
      isPaused := paused;
    }

    function IsPaused(): bool
      reads this
    {
      isPaused
    }

    /** `reset()`: back to day 0, 00:00:00, running. */
    method Reset()
      modifies this
      ensures Time() == Clock(0, 0, 0, 0) && !IsPaused()
    {
      hours, minutes, seconds, days := 0, 0, 0, 0;
      isPaused := false;
    }

    /** `onTimeChange(targetHour, callback)`: whether the callback runs. */
    method OnTimeChange(targetHour: int) returns (runs: bool)
      ensures runs <==> Time().hours == targetHour
    {
      runs := hours == targetHour;
    }
  }

  /** Pausing stops the clock: a paused update leaves the time shown unchanged. */
  method PausedUpdateKeepsTime(clock: TimeSystem, realTimeDelta: real) returns (before: string, after: string)
    modifies clock
    ensures before == after
  {
    clock.SetPaused(true);
    before := clock.CurrentTime();
    clock.Update(realTimeDelta);
    after := clock.CurrentTime();
  }
}
