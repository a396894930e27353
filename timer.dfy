/**
 * ChessTimer: two count-down clocks in milliseconds, each with a running
 * flag, ticked every 100 ms by a Swing timer. The tick callback is the
 * method Tick; the Swing timers themselves are the two `TimerOn` flags.
 */
module Timers {
  import opened JavaInts
  import opened Colors
  import opened Text

  /** isTimeLow's threshold: thirty seconds. */
  const LowTimeMillis: int := 30000

  /** What one tick of the 100 ms Swing timer leaves on a running clock: 100 ms less in long arithmetic, clamped at zero. */
  function AfterTick(t: Int64): Int64
  {
    var n := Wrap64(t - 100);
    if n <= 0 then 0 else n
  }

  /** Whether that tick is the one that runs the clock out. */
  predicate TimesOut(t: Int64)
  {
    Wrap64(t - 100) <= 0
  }

  /** The clock after n ticks. */
  function Ticks(t: Int64, n: nat): Int64
  {
    if n == 0 then t else AfterTick(Ticks(t, n - 1))
  }

  /** A clock that starts at t >= 0 loses 100 ms a tick until it reaches zero, and then stays there. */
  lemma {:induction false} TicksCountDown(t: Int64, n: nat)
    requires 0 <= t
    ensures 100 * n < t ==> Ticks(t, n) == t - 100 * n
    ensures t <= 100 * n ==> Ticks(t, n) == 0
  {
    if n > 0 {
      TicksCountDown(t, n - 1);
      var prev := Ticks(t, n - 1);
      assert Ticks(t, n) == AfterTick(prev);
      if 100 * n < t {
        assert prev == t - 100 * (n - 1);
        assert prev > 100;
        assert IsInt64(prev);
        assert IsInt64(prev as int - 100);
      }
    }
  }

  /** A clock holding t > 0 runs out on exactly the ceil(t / 100)-th tick. */
  lemma RunsOutAfter(t: Int64)
    requires 0 < t
    ensures var n := (t + 99) / 100;
            n >= 1 && Ticks(t, n) == 0 && Ticks(t, n - 1) > 0 && TimesOut(Ticks(t, n - 1))
  {
    var n := (t + 99) / 100;
    TicksCountDown(t, n);
    TicksCountDown(t, n - 1);
  }

  /** "%02d": at least two digits, a leading zero for 0..9; negative values keep their sign. */
  function Pad2(n: int): string
  {
    if 0 <= n < 10 then ['0', DigitChar(n)] else IntToString(n)
  }

  lemma Pad2Value(n: int)
    requires 0 <= n < 100
    ensures |Pad2(n)| == 2 && IsDigit(Pad2(n)[0]) && IsDigit(Pad2(n)[1])
    ensures DigitsValue(Pad2(n)) == n
  {
    if n >= 10 {
      NatToStringValue(n);
      assert |NatToString(n / 10)| == 1;
    } else {
      assert Pad2(n)[..1] == "0";
      assert DigitsValue("0") == 0;
    }
  }

  /** formatTime: "MM:SS" from the whole seconds, with Java's truncating long division. */
  function FormatTime(timeMs: Int64): string
  {
    var totalSeconds := JavaDiv(timeMs, 1000);
    var minutes := JavaDiv(totalSeconds, 60);
    var seconds := JavaRem(totalSeconds, 60);
    Pad2(minutes) + ":" + Pad2(seconds)
  }

  lemma FormatTimeExample()
    ensures FormatTime(125000) == "02:05"
  {
  }

  /**
   * Below 100 minutes the text is five characters "MM:SS" whose two
   * numbers give back the whole seconds of the clock, seconds below 60.
   */
  lemma FormatTimeReadsBack(timeMs: Int64)
    requires 0 <= timeMs < 6000000
    ensures var s := FormatTime(timeMs);
            |s| == 5 && s[2] == ':' &&
            IsDigit(s[0]) && IsDigit(s[1]) && IsDigit(s[3]) && IsDigit(s[4]) &&
            DigitsValue(s[3..]) < 60 &&
            DigitsValue(s[..2]) * 60 + DigitsValue(s[3..]) == timeMs / 1000
  {
    var total := timeMs / 1000;
    var minutes := total / 60;
    var seconds := total % 60;
    Pad2Value(minutes);
    Pad2Value(seconds);
    var s := FormatTime(timeMs);
    assert s == Pad2(minutes) + ":" + Pad2(seconds);
    assert s[..2] == Pad2(minutes);
    assert s[3..] == Pad2(seconds);
  }

  class ChessTimer {
    const initialTime: Int64
    var whiteTime: Int64
    var blackTime: Int64
    var whiteRunning: bool
    var blackRunning: bool
    var whiteTimerOn: bool
    var blackTimerOn: bool

    /** At most one clock counts down. */
    predicate Valid()
      reads this
    {
      !(whiteRunning && blackRunning)
    }

    function Remaining(c: Color): Int64
      reads this
    {
      if IsWhite(c) then whiteTime else blackTime
    }

    function Running(c: Color): bool
      reads this
    {
      if IsWhite(c) then whiteRunning else blackRunning
    }

    /** initialMinutes * 60 in int arithmetic, then * 1000L in long arithmetic; both clocks stopped. */
    constructor (initialMinutes: Int32)
      ensures initialTime == Wrap64(Wrap32(initialMinutes * 60) * 1000)
      ensures whiteTime == initialTime && blackTime == initialTime
      ensures !whiteRunning && !blackRunning && !whiteTimerOn && !blackTimerOn
      ensures Valid()
    {
      initialTime := Wrap64(Wrap32(initialMinutes * 60) * 1000);
      whiteTime := Wrap64(Wrap32(initialMinutes * 60) * 1000);
      blackTime := Wrap64(Wrap32(initialMinutes * 60) * 1000);
      whiteRunning := false;
      blackRunning := false;
      whiteTimerOn := false;
      blackTimerOn := false;
    }

    /** One firing of colour c's Swing timer. */
    method Tick(c: Color) returns (timedOut: bool)
      modifies this
      ensures old(Valid()) ==> Valid()
      ensures timedOut <==> old(Running(c)) && TimesOut(old(Remaining(c)))
      ensures old(Running(c)) ==> Remaining(c) == AfterTick(old(Remaining(c)))
      ensures old(Running(c)) ==> Running(c) == !timedOut
      ensures !old(Running(c)) ==> Remaining(c) == old(Remaining(c)) && Running(c) == old(Running(c))
      ensures Remaining(Opponent(c)) == old(Remaining(Opponent(c))) && Running(Opponent(c)) == old(Running(Opponent(c)))
      ensures whiteTimerOn == old(whiteTimerOn) && blackTimerOn == old(blackTimerOn)
    {
      timedOut := false;
      if IsWhite(c) {
        if whiteRunning {
          whiteTime := Wrap64(whiteTime - 100);
          if whiteTime <= 0 {
            whiteTime := 0;
            StopTimer(White);
            timedOut := true;
          }
        }
      } else {
        if blackRunning {
          blackTime := Wrap64(blackTime - 100);
          if blackTime <= 0 {
            blackTime := 0;
            StopTimer(Black);
            timedOut := true;
          }
        }
      }
    }

    /** startTimer: c's clock runs and the other one is stopped. */
    method StartTimer(c: Color)
      modifies this
      ensures Valid()
      ensures Running(c) && !Running(Opponent(c))
      ensures whiteTime == old(whiteTime) && blackTime == old(blackTime)
      ensures IsWhite(c) ==> whiteTimerOn && blackTimerOn == old(blackTimerOn)
      ensures IsBlack(c) ==> blackTimerOn && whiteTimerOn == old(whiteTimerOn)
    {
      if IsWhite(c) {
        if !whiteTimerOn {
          whiteTimerOn := true;
        }
        whiteRunning := true;
        StopTimer(Black);
      } else {
        if !blackTimerOn {
          blackTimerOn := true;
        }
        blackRunning := true;
        StopTimer(White);
      }
    }

    /** stopTimer: only c's flag is cleared. */
    method StopTimer(c: Color)
      modifies this
      ensures !Running(c) && Running(Opponent(c)) == old(Running(Opponent(c)))
      ensures whiteTime == old(whiteTime) && blackTime == old(blackTime)
      ensures whiteTimerOn == old(whiteTimerOn) && blackTimerOn == old(blackTimerOn)
    {
      if IsWhite(c) {
        whiteRunning := false;
      } else {
        blackRunning := false;
      }
    }

    method StopAllTimers()
      modifies this
      ensures Valid()
      ensures !whiteRunning && !blackRunning && !whiteTimerOn && !blackTimerOn
      ensures whiteTime == old(whiteTime) && blackTime == old(blackTime)
    {
      whiteRunning := false;
      blackRunning := false;
      whiteTimerOn := false;
      blackTimerOn := false;
    }

    /** reset: both clocks stopped and back to the initial time. */
    method Reset()
      modifies this
      ensures Valid()
      ensures !whiteRunning && !blackRunning && !whiteTimerOn && !blackTimerOn
      ensures whiteTime == initialTime && blackTime == initialTime
    {
      StopAllTimers();
      whiteTime := initialTime;
      blackTime := initialTime;
    }

    method GetTimeRemaining(c: Color) returns (t: Int64)
      ensures t == Remaining(c)
    {
      t := if IsWhite(c) then whiteTime else blackTime;
    }

    /** setTimeRemaining: only c's clock changes. */
    method SetTimeRemaining(c: Color, timeMs: Int64)
      modifies this
      ensures Remaining(c) == timeMs && Remaining(Opponent(c)) == old(Remaining(Opponent(c)))
      ensures whiteRunning == old(whiteRunning) && blackRunning == old(blackRunning)
      ensures whiteTimerOn == old(whiteTimerOn) && blackTimerOn == old(blackTimerOn)
    {
      if IsWhite(c) {
        whiteTime := timeMs;
      } else {
        blackTime := timeMs;
      }
    }

    method IsTimeLow(c: Color) returns (low: bool)
      ensures low <==> Remaining(c) < LowTimeMillis
    {
      var timeRemaining := if IsWhite(c) then whiteTime else blackTime;
      low := timeRemaining < LowTimeMillis;
    }
  }

  /** Up to 35791 minutes the int product does not wrap, and the clocks start at minutes * 60000 ms. */
  lemma InitialTimeExact(initialMinutes: Int32)
    requires 0 <= initialMinutes <= 35791
    ensures Wrap64(Wrap32(initialMinutes * 60) * 1000) == initialMinutes * 60000
  {
  }
}
