/**
 * When the project was last saved, and the timer that paces the refresh of
 * the "saved ... ago" label.
 *
 * Times are system times in whole nanoseconds since the Unix epoch; the
 * clock is a parameter.
 */
module SaveTimer {
  import opened Wrappers

  const NanosPerSecond: nat := 1_000_000_000

  /** `SystemTime::UNIX_EPOCH`, which stands for "never saved". */
  const Epoch: int := 0

  /** The `MostRecentSave` resource. */
  class MostRecentSave {
    var time: int

    /** The default: never saved. */
    constructor ()
      ensures time == Epoch
    {
      time := Epoch;
    }

    /** `set`: the given time is stored as it is. */
    method Set(t: int)
      modifies this
      ensures time == t
    {
      time := t;
    }

    /**
     * `time_since_last_save`, at clock reading `now`: nothing when never
     * saved or when the save lies in the future, otherwise the whole
     * seconds elapsed, rounded down.
     */
    function TimeSinceLastSave(now: int): (r: Option<nat>)
      reads this
      ensures r.None? <==> time == Epoch || now < time
      ensures r.Some? ==> r.value * NanosPerSecond <= now - time < (r.value + 1) * NanosPerSecond
    {
      if time == Epoch then None
      else if now < time then None
      else Some((now - time) / NanosPerSecond)
    }
  }

  /** The `UpdateSaveCountTimer` resource: a timer, reduced to its duration and mode. */
  class UpdateSaveCountTimer {
    /** The duration in nanoseconds. */
    var duration: nat
    var repeating: bool

    /** The default: a repeating one-second timer. */
    constructor ()
      ensures duration == NanosPerSecond && repeating
    {
      duration, repeating := NanosPerSecond, true;
    }

    /** `Timer::set_duration`. */
    method SetDuration(d: nat)
      modifies this
      ensures duration == d && repeating == old(repeating)
    {
      duration := d;
    }
  }

  /** The timer duration the save-count system leaves, given whether the timer finished this frame. */
  function DurationAfter(finished: bool, since: Option<nat>, duration: nat): (d: nat)
    ensures d == 60 * NanosPerSecond || d == duration
    ensures d != duration ==> finished && since.Some? && since.value >= 60
  {
    if finished && since.Some? && since.value >= 60 then 60 * NanosPerSecond else duration
  }

  /**
   * The `time_since_last_save` system, after its timer was ticked (ticking
   * is the engine's): once a minute has passed since the save, a finished
   * timer is slowed to one minute; otherwise the duration stays.
   */
  method TimeSinceLastSaveSystem(finished: bool, now: int, save: MostRecentSave, timer: UpdateSaveCountTimer)
    modifies timer
    ensures timer.duration == DurationAfter(finished, save.TimeSinceLastSave(now), old(timer.duration))
    ensures timer.repeating == old(timer.repeating)
  {
    if finished {
      var time := save.TimeSinceLastSave(now);
      if time.Some? {
        if time.value >= 60 {
          timer.SetDuration(60 * NanosPerSecond);
        }
      }
    }
  }

  /** The duration only ever becomes one minute: from one minute the system never moves it. */
  lemma DurationAfterMinute(finished: bool, since: Option<nat>)
    ensures DurationAfter(finished, since, 60 * NanosPerSecond) == 60 * NanosPerSecond
  {
  }
}
