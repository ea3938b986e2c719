/**
 * The statutory minimum break per shift (`minimum_break_for`). Both revisions
 * of the manual-entry command carry the same code; it is modelled once here.
 * The rule is the program's own clamp-and-ramp reading of section 4 of the
 * German Arbeitszeitgesetz, not the statute itself.
 */
module BreakRule {
  import opened Clock

  function Min(a: int, b: int): int { if a <= b then a else b }
  function Max(a: int, b: int): int { if a >= b then a else b }

  /**
   * Minimum break for a shift of `duration` seconds: nothing up to six hours;
   * beyond that the excess over six hours clamped to [15 min, 30 min]; beyond
   * nine hours a further `min(excess over nine hours, 15 min)`.
   */
  function MinimumBreakFor(duration: int): (b: int)
    ensures 0 <= b <= 45 * MINUTE
    ensures b == 0 <==> duration <= 6 * HOUR
    ensures 6 * HOUR < duration <= 9 * HOUR ==> 15 * MINUTE <= b <= 30 * MINUTE
    ensures duration > 9 * HOUR ==> 30 * MINUTE < b
  {
    var dur := if duration > 6 * HOUR then Max(Min(duration - 6 * HOUR, 30 * MINUTE), 15 * MINUTE) else 0;
    if duration > 9 * HOUR then dur + Min(duration - 9 * HOUR, 15 * MINUTE) else dur
  }

  /** In the six-to-nine-hour band the break is the excess over six hours, clamped to [15 min, 30 min]. */
  lemma MiddleBand(duration: int)
    requires 6 * HOUR < duration <= 9 * HOUR
    ensures duration - 6 * HOUR <= 15 * MINUTE ==> MinimumBreakFor(duration) == 15 * MINUTE
    ensures 15 * MINUTE <= duration - 6 * HOUR <= 30 * MINUTE ==> MinimumBreakFor(duration) == duration - 6 * HOUR
    ensures duration - 6 * HOUR >= 30 * MINUTE ==> MinimumBreakFor(duration) == 30 * MINUTE
  {
  }

  /** Past nine hours the break is the nine-hour amount plus `min(excess, 15 min)`, never above 45 min. */
  lemma LongShift(duration: int)
    requires duration > 9 * HOUR
    ensures MinimumBreakFor(duration) == MinimumBreakFor(9 * HOUR) + Min(duration - 9 * HOUR, 15 * MINUTE)
    ensures MinimumBreakFor(duration) <= 45 * MINUTE
  {
  }

  /** A longer shift never owes a shorter break. */
  lemma Monotone(d1: int, d2: int)
    requires d1 <= d2
    ensures MinimumBreakFor(d1) <= MinimumBreakFor(d2)
  {
  }

  /** The break owed is always shorter than a shift that owes one, by more than five hours. */
  lemma BreakFitsInShift(duration: int)
    requires duration > 6 * HOUR
    ensures MinimumBreakFor(duration) + 5 * HOUR < duration
  {
  }

  /** The unit-test table: shift minutes against break minutes. */
  lemma Table()
    ensures MinimumBreakFor(360 * MINUTE) == 0
    ensures MinimumBreakFor(365 * MINUTE) == 15 * MINUTE
    ensures MinimumBreakFor(375 * MINUTE) == 15 * MINUTE
    ensures MinimumBreakFor(420 * MINUTE) == 30 * MINUTE
    ensures MinimumBreakFor(540 * MINUTE) == 30 * MINUTE
    ensures MinimumBreakFor(545 * MINUTE) == 35 * MINUTE
    ensures MinimumBreakFor(555 * MINUTE) == 45 * MINUTE
    ensures MinimumBreakFor(600 * MINUTE) == 45 * MINUTE
  {
  }

  /**
   * The newer placement inserts a break only when `whole_minutes() > 0`, the
   * older one when `num_minutes() >= 0`: the first holds exactly for shifts
   * over six hours, the second always.
   */
  lemma BreakGuards(duration: int)
    ensures WholeMinutes(MinimumBreakFor(duration)) > 0 <==> duration > 6 * HOUR
    ensures WholeMinutes(MinimumBreakFor(duration)) >= 0
  {
  }

  /** A shift of whole minutes owes a break of whole minutes. */
  lemma WholeMinuteBreak(duration: int)
    requires duration % MINUTE == 0
    ensures MinimumBreakFor(duration) % MINUTE == 0
  {
  }
}
