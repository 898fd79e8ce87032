/** Saving: the save event records the time and speeds the label timer up again. */
module Save {
  import opened Wrappers
  import opened Ecs
  import opened SaveTimer

  /**
   * `save_event` at clock reading `now`: the most recent save becomes now
   * and the label timer goes back to one second. The parts are only read
   * (for the printed dump), so the store is not in the frame.
   */
  method SaveEvent(now: int, world: World, save: MostRecentSave, timer: UpdateSaveCountTimer)
    modifies save, timer
    ensures save.time == now
    ensures timer.duration == NanosPerSecond && timer.repeating == old(timer.repeating)
  {
    save.Set(now);
    timer.SetDuration(NanosPerSecond);
  }

  /** Asked at the instant of the save, the age of the save is zero seconds. */
  lemma SavedJustNow(save: MostRecentSave, now: int)
    requires save.time == now && now != Epoch
    ensures save.TimeSinceLastSave(now) == Some(0)
  {
  }

  /** A save that is younger than a minute leaves the one-second timer alone. */
  lemma FreshSaveKeepsPace(save: MostRecentSave, now: int, later: int, finished: bool)
    requires save.time == now && now != Epoch && now <= later < now + 60 * NanosPerSecond
    ensures save.TimeSinceLastSave(later).Some? && save.TimeSinceLastSave(later).value < 60
    ensures DurationAfter(finished, save.TimeSinceLastSave(later), NanosPerSecond) == NanosPerSecond
  {
  }
}
