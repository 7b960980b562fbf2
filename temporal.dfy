/**
 * The virtual clock of the simulation: a millisecond timestamp, a speed
 * multiplier and a pause flag. The clock advances only through `Tick`, by
 * the number of seconds it is handed; the multiplier is stored here but
 * applied by the caller.
 */
module Temporal {
  import opened Types
  import Js

  /** Monday 2026-01-05 08:00:00 as UTC, in milliseconds since the epoch. */
  const START_AS_UTC: int := 1767600000000

  const MS_PER_MINUTE: int := 60000

  /**
   * `new Date(ms + deltaTime * 1000)`: the sum in milliseconds, cut to a
   * whole number toward zero.
   */
  function Advance(ms: int, deltaTime: real): (r: int)
    ensures deltaTime >= 0.0 ==> ms <= r
    ensures deltaTime <= 0.0 ==> r <= ms
    ensures ms as real + deltaTime * 1000.0 >= 0.0 ==>
              r as real <= ms as real + deltaTime * 1000.0 < r as real + 1.0
    ensures ms as real + deltaTime * 1000.0 < 0.0 ==>
              r as real - 1.0 < ms as real + deltaTime * 1000.0 <= r as real
  {
    Js.Trunc(ms as real + deltaTime * 1000.0)
  }

  /** A step that is a whole number of milliseconds moves the clock by exactly that many. */
  lemma AdvanceWholeMillis(ms: int, steps: int)
    ensures Advance(ms, steps as real / 1000.0) == ms + steps
  {
    assert (steps as real / 1000.0) * 1000.0 == steps as real;
    Js.TruncIntegral(ms + steps);
  }

  /** Whole-millisecond steps compose: two ticks make one of their summed length. */
  lemma AdvanceCompose(ms: int, a: int, b: int)
    ensures Advance(Advance(ms, a as real / 1000.0), b as real / 1000.0)
         == Advance(ms, (a + b) as real / 1000.0)
  {
    AdvanceWholeMillis(ms, a);
    AdvanceWholeMillis(ms + a, b);
    AdvanceWholeMillis(ms, a + b);
  }

  /**
   * Fractional steps do not compose: each tick cuts its own sum to whole
   * milliseconds. Two half-millisecond ticks leave the clock where it was,
   * while one tick of their summed length moves it by a millisecond; and a
   * frame of 1/60 s moves it by 16 ms rather than 16.67 ms.
   */
  lemma FractionalTicksDrift()
    ensures Advance(Advance(0, 0.0005), 0.0005) == 0
    ensures Advance(0, 0.001) == 1
    ensures Advance(0, 1.0 / 60.0) == 16
  {
    assert Advance(0, 0.0005) == 0;
  }

  class TemporalSlice {
    var virtualTime: int  // milliseconds since the epoch
    var timeScale: TimeScale
    var isPaused: bool

    /**
     * The initial state: paused, at speed 1, at 08:00 local time on the
     * reference Monday. `utcOffsetMinutes` is the host's local offset from
     * UTC, since the reference date is written without one.
     */
    constructor (utcOffsetMinutes: int)
      ensures virtualTime == START_AS_UTC - utcOffsetMinutes * MS_PER_MINUTE
      ensures timeScale == 1 && isPaused
    {
      virtualTime := START_AS_UTC - utcOffsetMinutes * MS_PER_MINUTE;
      timeScale := 1;
      isPaused := true;
    }

    /** Advances the clock by `deltaTime` seconds unless it is paused. */
    method Tick(deltaTime: real)
      modifies this
      ensures old(isPaused) ==> virtualTime == old(virtualTime)
      ensures !old(isPaused) ==> virtualTime == Advance(old(virtualTime), deltaTime)
      ensures timeScale == old(timeScale) && isPaused == old(isPaused)
    {
      if isPaused {
        return;
      }
      virtualTime := Advance(virtualTime, deltaTime);
    }

    method SetSpeed(speed: TimeScale)
      modifies this
      ensures timeScale == speed
      ensures virtualTime == old(virtualTime) && isPaused == old(isPaused)
    {
      timeScale := speed;
    }

    method TogglePause()
      modifies this
      ensures isPaused == !old(isPaused)
      ensures virtualTime == old(virtualTime) && timeScale == old(timeScale)
    {
      isPaused := !isPaused;
    }

    /** Jumps to any instant, backwards included. */
    method SeekTime(target: int)
      modifies this
      ensures virtualTime == target
      ensures timeScale == old(timeScale) && isPaused == old(isPaused)
    {
      virtualTime := target;
    }
  }

  /** Pausing and resuming leaves the whole clock as it was. */
  method TogglePauseTwice(clock: TemporalSlice)
    modifies clock
    ensures clock.isPaused == old(clock.isPaused)
    ensures clock.virtualTime == old(clock.virtualTime) && clock.timeScale == old(clock.timeScale)
  {
    clock.TogglePause();
    clock.TogglePause();
  }

  /** A paused clock ignores ticks of any length. */
  method PausedClockStands(clock: TemporalSlice, d1: real, d2: real)
    requires clock.isPaused
    modifies clock
    ensures clock.virtualTime == old(clock.virtualTime) && clock.isPaused
  {
    clock.Tick(d1);
    clock.Tick(d2);
  }
}
